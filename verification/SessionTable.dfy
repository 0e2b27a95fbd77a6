/**
 The client table, presence broadcasts, the heartbeat sweep and the message handlers, as functions
 on the state of the HTTP task. Every handler and sweep runs to completion on that task. Whether the
 n-th send succeeds is decided by an oracle, so a statement for every oracle covers every pattern of
 send failures.
 */
module SessionTable {
  import opened ChatTypes

  const WS_JOIN_TIMEOUT_S := 10
  const NEW_USER: Text := [0x4E, 0x65, 0x77, 0x20, 0x55, 0x73, 0x65, 0x72]

  type Roster = seq<(Text, Text)>
  type Net = nat -> bool

  /** The texts that the server sends. */
  datatype Packet =
    | ErrorText
    | ReplayText
    | InfoText
    | UserList(users: Roster)
    | ChatText
    | RequestText
    | HistoryText
    | PingText

  /** A send: to whom, and what. */
  datatype Sent = Sent(fd: int, packet: Packet)

  /** What happened on connections, for statements about the past; `send` is the number of the ping's send. */
  datatype Observation =
    | Traffic(fd: int, at: int)
    | Pinged(fd: int, at: int, send: nat)
    | Missed(fd: int, at: int, delayed: bool)

  /**
   The table and sweep time, with what lies outside the program: the last user list delivered on
   each connection that is not yet closed, all sends so far, and the history of observations.
   */
  datatype World = World(
    slots: seq<Slot>,
    lastSweep: int,
    delivered: map<int, Roster>,
    sent: seq<Sent>,
    trace: seq<Observation>)

  // ---- Single slots ----

  const CLEARED := Slot(-1, false, false, false, false, false, 0, 0, 0, [], [])

  function CloseSlot(slot: Slot): Slot {
    slot.(closing := true, joined := false, isAlive := false, timeOffsetValid := false, timeOffset := 0,
          userId := [], name := [])
  }

  predicate On(slot: Slot, fd: int) {
    slot.active && slot.fd == fd
  }

  predicate Open(slot: Slot, fd: int) {
    On(slot, fd) && !slot.closing
  }

  predicate OpenJoined(slot: Slot, fd: int) {
    Open(slot, fd) && slot.joined
  }

  /** A slot that broadcasts go to. */
  predicate Member(slot: Slot) {
    slot.active && !slot.closing && slot.joined
  }

  // ---- Searches ----

  /** The first of the first `n` slots on `fd`; -1 if there is none. */
  function FirstOn(slots: seq<Slot>, n: nat, fd: int): int
    requires n <= |slots|
  {
    if n == 0 then -1
    else if FirstOn(slots, n - 1, fd) >= 0 then FirstOn(slots, n - 1, fd)
    else if On(slots[n - 1], fd) then n - 1 else -1
  }

  function FirstOpen(slots: seq<Slot>, n: nat, fd: int): int
    requires n <= |slots|
  {
    if n == 0 then -1
    else if FirstOpen(slots, n - 1, fd) >= 0 then FirstOpen(slots, n - 1, fd)
    else if Open(slots[n - 1], fd) then n - 1 else -1
  }

  function FirstOpenJoined(slots: seq<Slot>, n: nat, fd: int): int
    requires n <= |slots|
  {
    if n == 0 then -1
    else if FirstOpenJoined(slots, n - 1, fd) >= 0 then FirstOpenJoined(slots, n - 1, fd)
    else if OpenJoined(slots[n - 1], fd) then n - 1 else -1
  }

  function FirstFree(slots: seq<Slot>, n: nat): int
    requires n <= |slots|
  {
    if n == 0 then -1
    else if FirstFree(slots, n - 1) >= 0 then FirstFree(slots, n - 1)
    else if !slots[n - 1].active then n - 1 else -1
  }

  function LastOpen(slots: seq<Slot>, n: nat, fd: int): int
    requires n <= |slots|
  {
    if n == 0 then -1 else if Open(slots[n - 1], fd) then n - 1 else LastOpen(slots, n - 1, fd)
  }

  // ---- Table operations ----

  function MarkClosing(slots: seq<Slot>, fd: int): (r: seq<Slot>)
    ensures |r| == |slots|
  {
    seq(|slots|, i requires 0 <= i < |slots| => if On(slots[i], fd) then CloseSlot(slots[i]) else slots[i])
  }

  predicate AnyJoinedOn(slots: seq<Slot>, fd: int) {
    exists i :: 0 <= i < |slots| && On(slots[i], fd) && slots[i].joined
  }

  function Remove(slots: seq<Slot>, fd: int): (r: seq<Slot>)
    ensures |r| == |slots|
  {
    seq(|slots|, i requires 0 <= i < |slots| => if On(slots[i], fd) then CLEARED else slots[i])
  }

  predicate AnyOn(slots: seq<Slot>, fd: int) {
    exists i :: 0 <= i < |slots| && On(slots[i], fd)
  }

  /** Traffic on a connection: keep its slot alive, or give it one. */
  function EnsureSlot(slots: seq<Slot>, fd: int, now: int): (r: (seq<Slot>, bool))
    ensures |r.0| == |slots|
  {
    var known := FirstOn(slots, |slots|, fd);
    if 0 <= known < |slots| then
      if slots[known].closing then (slots, false)
      else (slots[known := slots[known].(isAlive := true)], true)
    else
      var free := FirstFree(slots, |slots|);
      if 0 <= free < |slots| then
        (slots[free := Slot(fd, true, false, false, true, false, 0, now, now, [], NEW_USER)], true)
      else (slots, false)
  }

  /** The slot a join takes: the connection's own, else a free one. */
  function JoinTarget(slots: seq<Slot>, fd: int): int {
    var open := LastOpen(slots, |slots|, fd);
    if open >= 0 then open else FirstFree(slots, |slots|)
  }

  function JoinSlot(slot: Slot, fd: int, user: Text, name: Text, now: int): Slot {
    var changed := slot.fd != fd || slot.userId == [] || slot.userId != user;
    Slot(fd, true, false, true, true,
         if changed then false else slot.timeOffsetValid, if changed then 0 else slot.timeOffset,
         now, now, user, name)
  }

  predicate Stale(slot: Slot, user: Text) {
    slot.active && slot.userId != [] && slot.userId == user
  }

  function CloseStale(slots: seq<Slot>, target: int, user: Text): (r: seq<Slot>)
    ensures |r| == |slots|
  {
    seq(|slots|, i requires 0 <= i < |slots| =>
          if i != target && Stale(slots[i], user) then CloseSlot(slots[i]) else slots[i])
  }

  /** The other connections of this user, in slot order. */
  function StaleFds(slots: seq<Slot>, n: nat, target: int, fd: int, user: Text): seq<int>
    requires n <= |slots|
  {
    if n == 0 then []
    else
      var slot := slots[n - 1];
      StaleFds(slots, n - 1, target, fd, user) +
      if n - 1 != target && Stale(slot, user) && slot.fd >= 0 && slot.fd != fd then [slot.fd] else []
  }

  function RosterOf(slots: seq<Slot>): Roster {
    if slots == [] then []
    else
      var slot := slots[|slots| - 1];
      RosterOf(slots[..|slots| - 1]) +
      if Member(slot) && slot.userId != [] then [(slot.userId, if slot.name != [] then slot.name else NEW_USER)] else []
  }

  function MemberFds(slots: seq<Slot>): seq<int> {
    if slots == [] then []
    else MemberFds(slots[..|slots| - 1]) + if Member(slots[|slots| - 1]) then [slots[|slots| - 1].fd] else []
  }

  datatype IdentityStatus = NotJoined | Mismatch | Matches

  function CheckIdentity(slots: seq<Slot>, fd: int, user: Option<Text>): IdentityStatus {
    var i := FirstOpen(slots, |slots|, fd);
    if !(0 <= i < |slots|) || !slots[i].joined || slots[i].userId == [] then NotJoined
    else if user == Some(slots[i].userId) then Matches else Mismatch
  }

  predicate IsJoined(slots: seq<Slot>, fd: int) {
    !CheckIdentity(slots, fd, None).NotJoined?
  }

  function MarkAlive(slots: seq<Slot>, fd: int): (r: seq<Slot>)
    ensures |r| == |slots|
  {
    var i := FirstOpenJoined(slots, |slots|, fd);
    if 0 <= i < |slots| then slots[i := slots[i].(isAlive := true)] else slots
  }

  /** A client's clock sample, already reduced to its offset from the device uptime. */
  function UpdateTimeSample(slots: seq<Slot>, fd: int, sample: Option<int>): (r: seq<Slot>)
    ensures |r| == |slots|
  {
    var i := FirstOpenJoined(slots, |slots|, fd);
    if sample.Some? && 0 <= i < |slots|
    then slots[i := slots[i].(timeOffset := sample.value, timeOffsetValid := true)] else slots
  }

  // ---- Sending ----

  /** One send; a user list that goes out is what the client has seen last. */
  function Send(w: World, fd: int, packet: Packet, net: Net): (World, bool) {
    var ok := net(|w.sent|);
    (w.(sent := w.sent + [Sent(fd, packet)],
        delivered := if ok && packet.UserList? then w.delivered[fd := packet.users] else w.delivered), ok)
  }

  function SendError(w: World, fd: int, net: Net): World {
    Send(w, fd, ErrorText, net).0
  }

  function CloseClient(w: World, fd: int): World {
    w.(slots := MarkClosing(w.slots, fd))
  }

  function SendErrorAndClose(w: World, fd: int, net: Net): World {
    CloseClient(SendError(w, fd, net), fd)
  }

  function BroadcastTo(w: World, fds: seq<int>, packet: Packet, net: Net): (World, bool)
    decreases |fds|
  {
    if fds == [] then (w, false)
    else
      var (w1, ok) := Send(w, fds[0], packet, net);
      var (w2, closed) := BroadcastTo(if ok then w1 else CloseClient(w1, fds[0]), fds[1..], packet, net);
      (w2, !ok || closed)
  }

  function Broadcast(w: World, packet: Packet, net: Net): (World, bool) {
    BroadcastTo(w, MemberFds(w.slots), packet, net)
  }

  /** Presence rounds until one has no failure; the flag says whether such a round came in time. */
  function PresenceRounds(w: World, attempts: nat, net: Net): (World, bool)
    decreases attempts
  {
    if attempts == 0 then (w, false)
    else
      var (w1, closed) := Broadcast(w, UserList(RosterOf(w.slots)), net);
      if !closed then (w1, true) else PresenceRounds(w1, attempts - 1, net)
  }

  function BroadcastPresence(w: World, net: Net): World {
    PresenceRounds(w, |w.slots| + 1, net).0
  }

  /** Telling replaced sessions, then closing them; a failed notice is ignored. */
  function RetireStale(w: World, fds: seq<int>, net: Net): World
    decreases |fds|
  {
    if fds == [] then w else RetireStale(SendErrorAndClose(w, fds[0], net), fds[1..], net)
  }

  function UpdateIdentity(w: World, fd: int, user: Text, name: Text, now: int, net: Net): (World, bool) {
    var target := JoinTarget(w.slots, fd);
    if !(0 <= target < |w.slots|) then (w, false)
    else
      var slots := w.slots[target := JoinSlot(w.slots[target], fd, user, name, now)];
      var stale := StaleFds(slots, |slots|, target, fd, user);
      (RetireStale(w.(slots := CloseStale(slots, target, user)), stale, net), true)
  }

  // ---- Handlers ----

  /** Everything a join depends on besides the table: validity, the id store, and the replay's allocations. */
  datatype JoinRequest = JoinRequest(
    from: Option<Text>, name: Option<Text>, sinceOk: bool, idsLoaded: bool,
    replayAllocs: seq<bool>, infoAlloc: bool, sample: Option<int>)

  datatype Message =
    | Untyped
    | Pong(from: Option<Text>, sample: Option<int>)
    | Join(request: JoinRequest)
    | GetOnlineUsers(from: Option<Text>, sample: Option<int>)
    | Chat(from: Option<Text>, sample: Option<int>, stored: bool, infoAlloc: bool)
    | HistoryRequest(from: Option<Text>, sample: Option<int>, relayed: bool)
    | HistoryResponse(from: Option<Text>, sample: Option<int>, users: Option<set<Text>>)
    | UnknownType(from: Option<Text>, sample: Option<int>)

  datatype Frame =
    | Broken                      // reading the frame failed
    | PongFrame(whole: bool)
    | EmptyFrame(isText: bool)
    | Oversize
    | NoBuffer                    // no memory for the payload
    | CloseFrame
    | WrongKind                   // binary, or a fragment
    | BadJson
    | Payload(message: Message)

  /** The replay's sends; false when an allocation or a send stopped it. */
  function Replay(w: World, fd: int, allocs: seq<bool>, net: Net): (World, bool)
    decreases |allocs|
  {
    if allocs == [] then (w, true)
    else if !allocs[0] then (SendError(w, fd, net), false)
    else
      var (w1, ok) := Send(w, fd, ReplayText, net);
      if ok then Replay(w1, fd, allocs[1..], net) else (CloseClient(w1, fd), false)
  }

  function SendInfo(w: World, fd: int, infoAlloc: bool, net: Net): (World, bool) {
    var (w1, ok) := Send(w, fd, if infoAlloc then InfoText else ErrorText, net);
    (w1, ok && infoAlloc)
  }

  function Synchronize(w: World, fd: int, r: JoinRequest, net: Net): (World, bool) {
    var (w1, ok1) := Replay(w, fd, r.replayAllocs, net);
    if !ok1 then (w1, false)
    else
      var (w2, ok2) := SendInfo(w1, fd, r.infoAlloc, net);
      if !ok2 then (w2, false) else Send(w2, fd, UserList(RosterOf(w2.slots)), net)
  }

  function HandleJoin(w: World, fd: int, r: JoinRequest, now: int, net: Net): World {
    if r.from.None? || r.name.None? || !r.sinceOk then SendErrorAndClose(w, fd, net)
    else if CheckIdentity(w.slots, fd, r.from).Mismatch? then SendErrorAndClose(w, fd, net)
    else if !r.idsLoaded then SendErrorAndClose(w, fd, net)
    else
      var (w1, updated) := UpdateIdentity(w, fd, r.from.value, r.name.value, now, net);
      if !updated then SendErrorAndClose(w1, fd, net)
      else
        var (w2, synced) := Synchronize(w1.(slots := UpdateTimeSample(w1.slots, fd, r.sample)), fd, r, net);
        if synced then BroadcastPresence(w2, net) else CloseClient(w2, fd)
  }

  /** A message whose sender is checked first: a wrong one is told so and closed. */
  function RequireIdentity(w: World, fd: int, from: Option<Text>, sample: Option<int>, net: Net): (World, bool) {
    if CheckIdentity(w.slots, fd, from).Matches? then (w.(slots := UpdateTimeSample(w.slots, fd, sample)), true)
    else (SendErrorAndClose(w, fd, net), false)
  }

  function PresenceIf(w: World, changed: bool, net: Net): World {
    if changed then BroadcastPresence(w, net) else w
  }

  function HandleChat(w: World, fd: int, stored: bool, infoAlloc: bool, net: Net): World {
    if !stored then SendError(w, fd, net)
    else
      var (w1, closed1) := Broadcast(w, ChatText, net);
      var (w2, closed2) := if infoAlloc then Broadcast(w1, InfoText, net) else (w1, false);
      PresenceIf(w2, closed1 || closed2, net)
  }

  predicate Recipient(slot: Slot, users: set<Text>) {
    slot.active && slot.joined && slot.userId != [] && slot.userId in users
  }

  /** The connections of the users a history response names. */
  function RecipientFds(slots: seq<Slot>, users: set<Text>): seq<int> {
    if slots == [] then []
    else
      var slot := slots[|slots| - 1];
      RecipientFds(slots[..|slots| - 1], users) +
      if Recipient(slot, users) then [slot.fd] else []
  }

  function HandleHistoryResponse(w: World, fd: int, users: Option<set<Text>>, net: Net): World {
    if users.None? then SendError(w, fd, net)
    else
      var (w1, failed) := BroadcastTo(w, RecipientFds(w.slots, users.value), HistoryText, net);
      if failed then SendError(BroadcastPresence(w1, net), fd, net) else w1
  }

  function Sender(m: Message): (Option<Text>, Option<int>)
    requires !m.Untyped? && !m.Join?
  {
    (m.from, m.sample)
  }

  function HandleHistoryRequest(w: World, fd: int, relayed: bool, net: Net): World {
    if !relayed then SendError(w, fd, net)
    else
      var (w1, closed) := Broadcast(w, RequestText, net);
      PresenceIf(w1, closed, net)
  }

  /** A message whose sender has been found to match. */
  function HandleIdentified(w: World, fd: int, m: Message, net: Net): World
    requires !m.Untyped? && !m.Join?
  {
    match m
    case Pong(_, _) => w.(slots := MarkAlive(w.slots, fd))
    case GetOnlineUsers(_, _) => Send(w, fd, UserList(RosterOf(w.slots)), net).0
    case Chat(_, _, stored, infoAlloc) => HandleChat(w, fd, stored, infoAlloc, net)
    case HistoryRequest(_, _, relayed) => HandleHistoryRequest(w, fd, relayed, net)
    case HistoryResponse(_, _, users) => HandleHistoryResponse(w, fd, users, net)
    case UnknownType(_, _) => SendError(w, fd, net)
  }

  function HandleMessage(w: World, fd: int, m: Message, now: int, net: Net): World {
    if m.Untyped? then (if IsJoined(w.slots, fd) then SendError(w, fd, net) else SendErrorAndClose(w, fd, net))
    else if m.Join? then HandleJoin(w, fd, m.request, now, net)
    else
      var (from, sample) := Sender(m);
      var (w1, ok) := RequireIdentity(w, fd, from, sample, net);
      if ok then HandleIdentified(w1, fd, m, net) else w1
  }

  /** Closing a connection and, if it had joined, telling the others. */
  function CloseAndTell(w: World, fd: int, net: Net): World {
    PresenceIf(CloseClient(w, fd), AnyJoinedOn(w.slots, fd), net)
  }

  function HandlePong(w: World, fd: int, whole: bool): World {
    if !whole || !IsJoined(w.slots, fd) then CloseClient(w, fd) else w.(slots := MarkAlive(w.slots, fd))
  }

  /** A frame on a connection whose slot has just been checked. */
  function Dispatch(w: World, fd: int, frame: Frame, now: int, net: Net): World {
    match frame
    case Broken => CloseAndTell(w, fd, net)
    case PongFrame(whole) => HandlePong(w, fd, whole)
    case EmptyFrame(isText) =>
      var w1 := SendError(w, fd, net);
      if !isText || !IsJoined(w.slots, fd) then CloseClient(w1, fd) else w1
    case Oversize => CloseAndTell(SendError(w, fd, net), fd, net)
    case NoBuffer => w
    case CloseFrame => CloseAndTell(w, fd, net)
    case WrongKind => SendErrorAndClose(w, fd, net)
    case BadJson => if IsJoined(w.slots, fd) then SendError(w, fd, net) else SendErrorAndClose(w, fd, net)
    case Payload(m) => HandleMessage(w, fd, m, now, net)
  }

  function Admit(w: World, fd: int, now: int): (World, bool) {
    var (slots, ready) := EnsureSlot(w.slots, fd, now);
    if ready then (w.(slots := slots, trace := w.trace + [Traffic(fd, now)]), true) else (w, false)
  }

  /** A join reads the clock again, `later` than the admission of its frame. */
  function HandleFrame(w: World, fd: int, frame: Frame, now: int, later: int, net: Net): World {
    var (w1, ready) := Admit(w, fd, now);
    if ready then Dispatch(w1, fd, frame, later, net) else w1
  }

  /** The server's close callback, after which the descriptor may be used again. */
  function SessionClosed(w: World, fd: int, net: Net): World {
    PresenceIf(w.(slots := Remove(w.slots, fd), delivered := w.delivered - {fd}), AnyOn(w.slots, fd), net)
  }

  // ---- The heartbeat sweep ----

  datatype Action = Keep | CloseUnjoined | CloseMissed | Ping

  /** What a sweep does with one slot; `h` is the heartbeat interval. */
  function Judge(slot: Slot, now: int, delayed: bool, h: int): (Slot, Action) {
    if !slot.active || slot.closing then (slot, Keep)
    else if !slot.joined then
      if delayed then (slot.(registeredAt := now), Keep)
      else if now - slot.registeredAt < WS_JOIN_TIMEOUT_S then (slot, Keep)
      else (CloseSlot(slot), CloseUnjoined)
    else
      var s := if delayed && !slot.isAlive then slot.(isAlive := true, lastPing := now - h) else slot;
      if !s.isAlive then
        if now - s.lastPing < h then (s, Keep) else (CloseSlot(s), CloseMissed)
      else if now - s.lastPing < h then (s, Keep)
      else (s.(isAlive := false, lastPing := now), Ping)
  }

  function SweepSlots(slots: seq<Slot>, now: int, delayed: bool, h: int): (r: seq<Slot>)
    ensures |r| == |slots|
  {
    seq(|slots|, i requires 0 <= i < |slots| => Judge(slots[i], now, delayed, h).0)
  }

  /** Whether a joined client missed its heartbeat, and whom the sweep closes and pings, in slot order. */
  function Findings(slots: seq<Slot>, n: nat, now: int, delayed: bool, h: int): (bool, seq<int>, seq<int>)
    requires n <= |slots|
  {
    if n == 0 then (false, [], [])
    else
      var (missed, closes, pings) := Findings(slots, n - 1, now, delayed, h);
      var action, fd := Judge(slots[n - 1], now, delayed, h).1, slots[n - 1].fd;
      (missed || action.CloseMissed?,
       if action.CloseUnjoined? || action.CloseMissed? then closes + [fd] else closes,
       if action.Ping? then pings + [fd] else pings)
  }

  /** `send` is the number of the next ping's send. */
  function ObserveSlot(slot: Slot, now: int, delayed: bool, h: int, send: nat): seq<Observation> {
    match Judge(slot, now, delayed, h).1
    case CloseMissed => [Missed(slot.fd, now, delayed)]
    case Ping => [Pinged(slot.fd, now, send)]
    case _ => []
  }

  /** The sweep's observations over the first `n` slots; its pings are the sends from `first` on, in slot order. */
  function Observe(slots: seq<Slot>, n: nat, now: int, delayed: bool, h: int, first: nat): seq<Observation>
    requires n <= |slots|
  {
    if n == 0 then []
    else
      Observe(slots, n - 1, now, delayed, h, first) +
      ObserveSlot(slots[n - 1], now, delayed, h, first + |Findings(slots, n - 1, now, delayed, h).2|)
  }

  function CloseAll(w: World, fds: seq<int>): World
    decreases |fds|
  {
    if fds == [] then w else CloseAll(CloseClient(w, fds[0]), fds[1..])
  }

  function Sweep(w: World, now: int, h: int, net: Net): World {
    var n := |w.slots|;
    var delayed := now - w.lastSweep > h;
    var w1 := w.(slots := SweepSlots(w.slots, now, delayed, h), lastSweep := now,
                 trace := w.trace + Observe(w.slots, n, now, delayed, h, |w.sent|));
    var (missed, closes, pings) := Findings(w.slots, n, now, delayed, h);
    var (w2, failed) := BroadcastTo(CloseAll(w1, closes), pings, PingText, net);
    PresenceIf(w2, missed || failed, net)
  }
}
