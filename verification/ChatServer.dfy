/** The HTTP task's code over the client table, statement by statement, against the functions of SessionTable. */
module ChatServer {
  import opened ChatTypes
  import opened SessionTable
  import SessionFacts
  import SessionRuns
  import SessionSteps

  class Server {
    const slots: array<Slot>
    const h: int
    const net: Net
    var lastSweep: int
    var sent: seq<Sent>
    ghost var delivered: map<int, Roster>
    ghost var trace: seq<Observation>

    ghost function State(): World
      reads this, slots
    {
      World(slots[..], lastSweep, delivered, sent, trace)
    }

    /** Each connection has one slot, each user one joined slot, and everyone joined knows who is there. */
    ghost predicate Valid()
      reads this, slots
    {
      SessionSteps.Good(State())
    }

    ghost function Setting(): SessionRuns.Setup {
      SessionRuns.Setup(slots.Length, 0, h, net)
    }

    constructor (setup: SessionRuns.Setup)
      ensures Valid() && State() == SessionRuns.Start(setup) && h == setup.h && net == setup.net && fresh(slots)
    {
      slots := new Slot[setup.size](_ => SessionRuns.ZERO);
      h, net, lastSweep, sent := setup.h, setup.net, setup.startedAt, [];
      delivered, trace := map[], [];
      new;
      assert slots[..] == seq(setup.size, i => SessionRuns.ZERO);
      SessionRuns.RunIsGood(setup, []);
    }

    // ---- The client table ----

    /** Closes every slot on `fd`, and says whether one of them had joined. */
    method MarkClosing(fd: int) returns (wasJoined: bool)
      modifies slots
      ensures slots[..] == SessionTable.MarkClosing(old(slots[..]), fd)
      ensures wasJoined == AnyJoinedOn(old(slots[..]), fd)
    {
      ghost var before := slots[..];
      wasJoined := false;
      for i := 0 to slots.Length
        invariant forall k :: 0 <= k < i ==> slots[k] == if On(before[k], fd) then CloseSlot(before[k]) else before[k]
        invariant forall k :: i <= k < slots.Length ==> slots[k] == before[k]
        invariant wasJoined == exists k :: 0 <= k < i && On(before[k], fd) && before[k].joined
      {
        if slots[i].active && slots[i].fd == fd {
          assert On(before[i], fd);
          wasJoined := slots[i].joined || wasJoined;
          slots[i] := CloseSlot(slots[i]);
        }
      }
    }

    /** Frees every slot on `fd`. */
    method RemoveByFd(fd: int) returns (removed: bool)
      modifies slots
      ensures slots[..] == Remove(old(slots[..]), fd)
      ensures removed == AnyOn(old(slots[..]), fd)
    {
      ghost var before := slots[..];
      removed := false;
      for i := 0 to slots.Length
        invariant forall k :: 0 <= k < i ==> slots[k] == if On(before[k], fd) then CLEARED else before[k]
        invariant forall k :: i <= k < slots.Length ==> slots[k] == before[k]
        invariant removed == exists k :: 0 <= k < i && On(before[k], fd)
      {
        if slots[i].active && slots[i].fd == fd {
          assert On(before[i], fd);
          slots[i] := CLEARED;
          removed := true;
        }
      }
    }

    /** Keeps the connection's slot alive, or registers it in a free one. */
    method EnsureSlot(fd: int, now: int) returns (ready: bool)
      modifies slots
      ensures (slots[..], ready) == SessionTable.EnsureSlot(old(slots[..]), fd, now)
    {
      ghost var before := slots[..];
      var fdKnown := false;
      ready := false;
      for i := 0 to slots.Length
        invariant slots[..] == before && FirstOn(before, i, fd) == -1
      {
        if slots[i].active && slots[i].fd == fd {
          OnFoundStays(before, i + 1, |before|, fd);
          if slots[i].closing {
            return false;
          }
          slots[i] := slots[i].(isAlive := true);
          return true;
        }
      }
      for i := 0 to slots.Length
        invariant slots[..] == before && FirstFree(before, i) == -1
      {
        if !slots[i].active {
          FreeFoundStays(before, i + 1, |before|);
          slots[i] := Slot(fd, true, false, false, true, false, 0, now, now, [], NEW_USER);
          return true;
        }
      }
    }

    /** The connection's own user, as the table has it. */
    method CheckIdentity(fd: int, user: Option<Text>) returns (status: IdentityStatus)
      ensures status == SessionTable.CheckIdentity(slots[..], fd, user)
    {
      for i := 0 to slots.Length
        invariant FirstOpen(slots[..], i, fd) == -1
      {
        if !slots[i].active || slots[i].closing || slots[i].fd != fd {
          continue;
        }
        OpenFoundStays(slots[..], i + 1, slots.Length, fd);
        if !slots[i].joined || slots[i].userId == [] {
          return NotJoined;
        }
        return if user.Some? && slots[i].userId == user.value then Matches else Mismatch;
      }
      return NotJoined;
    }

    method IsJoined(fd: int) returns (joined: bool)
      ensures joined == SessionTable.IsJoined(slots[..], fd)
    {
      joined := false;
      for i := 0 to slots.Length
        invariant FirstOpen(slots[..], i, fd) == -1 && !joined
      {
        if slots[i].active && !slots[i].closing && slots[i].fd == fd {
          OpenFoundStays(slots[..], i + 1, slots.Length, fd);
          return slots[i].joined && slots[i].userId != [];
        }
      }
    }

    method MarkAlive(fd: int)
      modifies slots
      ensures slots[..] == SessionTable.MarkAlive(old(slots[..]), fd)
    {
      ghost var before := slots[..];
      for i := 0 to slots.Length
        invariant slots[..] == before && FirstOpenJoined(before, i, fd) == -1
      {
        if slots[i].active && !slots[i].closing && slots[i].joined && slots[i].fd == fd {
          OpenJoinedFoundStays(before, i + 1, |before|, fd);
          slots[i] := slots[i].(isAlive := true);
          return;
        }
      }
    }

    method UpdateTimeSample(fd: int, sample: Option<int>)
      modifies slots
      ensures slots[..] == SessionTable.UpdateTimeSample(old(slots[..]), fd, sample)
    {
      ghost var before := slots[..];
      if sample.None? {
        return;
      }
      for i := 0 to slots.Length
        invariant slots[..] == before && FirstOpenJoined(before, i, fd) == -1
      {
        if slots[i].active && !slots[i].closing && slots[i].joined && slots[i].fd == fd {
          OpenJoinedFoundStays(before, i + 1, |before|, fd);
          slots[i] := slots[i].(timeOffset := sample.value, timeOffsetValid := true);
          return;
        }
      }
    }

    method BuildOnlineUsers() returns (users: Roster)
      ensures users == RosterOf(slots[..])
    {
      users := [];
      for i := 0 to slots.Length
        invariant users == RosterOf(slots[..i])
      {
        assert slots[..i + 1][..i] == slots[..i];
        if !slots[i].active || slots[i].closing || !slots[i].joined || slots[i].userId == [] {
          continue;
        }
        users := users + [(slots[i].userId, if slots[i].name != [] then slots[i].name else NEW_USER)];
      }
      assert slots[..slots.Length] == slots[..];
    }

    // ---- Sending ----

    /** One send; the map of delivered user lists is what the clients have seen. */
    method SendText(fd: int, packet: Packet) returns (ok: bool)
      modifies this`sent, this`delivered
      ensures (State(), ok) == Send(old(State()), fd, packet, net)
    {
      ok := net(|sent|);
      sent := sent + [Sent(fd, packet)];
      if ok && packet.UserList? {
        delivered := delivered[fd := packet.users];
      }
    }

    method SendError(fd: int) returns (ok: bool)
      modifies this`sent, this`delivered
      ensures (State(), ok) == Send(old(State()), fd, ErrorText, net)
    {
      ok := SendText(fd, ErrorText);
    }

    method CloseClient(fd: int)
      modifies slots
      ensures State() == SessionTable.CloseClient(old(State()), fd)
    {
      var wasJoined := MarkClosing(fd);
    }

    method SendErrorAndClose(fd: int)
      modifies this`sent, this`delivered, slots
      ensures State() == SessionTable.SendErrorAndClose(old(State()), fd, net)
    {
      var ok := SendError(fd);
      CloseClient(fd);
    }

    /** The sending loop shared by broadcasts, relays and pings. */
    method SendToAll(fds: seq<int>, packet: Packet) returns (closed: bool)
      modifies this`sent, this`delivered, slots
      ensures (State(), closed) == BroadcastTo(old(State()), fds, packet, net)
    {
      closed := false;
      ghost var all := BroadcastTo(State(), fds, packet, net);
      for i := 0 to |fds|
        invariant lastSweep == old(lastSweep) && trace == old(trace)
        invariant var rest := BroadcastTo(State(), fds[i..], packet, net); all == (rest.0, closed || rest.1)
      {
        assert fds[i..][1..] == fds[i + 1..];
        var ok := SendText(fds[i], packet);
        if !ok {
          CloseClient(fds[i]);
          closed := true;
        }
      }
    }

    method Broadcast(packet: Packet) returns (closed: bool)
      modifies this`sent, this`delivered, slots
      ensures (State(), closed) == SessionTable.Broadcast(old(State()), packet, net)
    {
      var fds := [];
      for i := 0 to slots.Length
        invariant fds == MemberFds(slots[..i])
      {
        assert slots[..i + 1][..i] == slots[..i];
        if !slots[i].active || slots[i].closing || !slots[i].joined {
          continue;
        }
        fds := fds + [slots[i].fd];
      }
      assert slots[..slots.Length] == slots[..];
      closed := SendToAll(fds, packet);
    }

    /** Presence rounds until one closes nobody; there always is one within the bound. */
    method BroadcastOnlineUsers() returns (converged: bool)
      modifies this`sent, this`delivered, slots
      ensures State() == BroadcastPresence(old(State()), net) && converged
    {
      ghost var before := State();
      SessionFacts.PresenceBroadcastConverges(before, net);
      ghost var n := slots.Length + 1;
      for attempt := 0 to slots.Length + 1
        invariant PresenceRounds(before, n, net) == PresenceRounds(State(), n - attempt, net)
      {
        var users := BuildOnlineUsers();
        var closed := Broadcast(UserList(users));
        if !closed {
          return true;
        }
      }
      converged := false;
    }

    // ---- Joining ----

    method UpdateIdentity(fd: int, user: Text, name: Text, now: int) returns (updated: bool)
      modifies this`sent, this`delivered, slots
      ensures (State(), updated) == SessionTable.UpdateIdentity(old(State()), fd, user, name, now, net)
    {
      ghost var before := State();
      var target := FindTarget(fd);
      if target < 0 {
        return false;
      }
      slots[target] := JoinSlot(slots[target], fd, user, name, now);
      ghost var bound := slots[..];
      assert bound == before.slots[target := JoinSlot(before.slots[target], fd, user, name, now)];
      var staleFds := CloseOtherSessions(target, fd, user);
      Retire(staleFds);
      return true;
    }

    method FindTarget(fd: int) returns (target: int)
      ensures target == JoinTarget(slots[..], fd) && target < slots.Length
    {
      var freeSlot, fdSlot := -1, -1;
      for i := 0 to slots.Length
        invariant freeSlot == FirstFree(slots[..], i) && fdSlot == LastOpen(slots[..], i, fd)
        invariant freeSlot < i && fdSlot < i
      {
        if slots[i].active && !slots[i].closing && slots[i].fd == fd {
          fdSlot := i;
          continue;
        }
        if !slots[i].active && freeSlot < 0 {
          freeSlot := i;
        }
      }
      target := if fdSlot >= 0 then fdSlot else freeSlot;
    }

    method CloseOtherSessions(target: int, fd: int, user: Text) returns (staleFds: seq<int>)
      modifies slots
      ensures slots[..] == CloseStale(old(slots[..]), target, user)
      ensures staleFds == StaleFds(old(slots[..]), slots.Length, target, fd, user)
    {
      ghost var before := slots[..];
      staleFds := [];
      for i := 0 to slots.Length
        invariant staleFds == StaleFds(before, i, target, fd, user)
        invariant forall k :: 0 <= k < i ==> slots[k] == CloseStale(before, target, user)[k]
        invariant forall k :: i <= k < slots.Length ==> slots[k] == before[k]
      {
        if i == target || !slots[i].active || slots[i].userId == [] {
          continue;
        }
        if slots[i].userId == user {
          if slots[i].fd >= 0 && slots[i].fd != fd {
            staleFds := staleFds + [slots[i].fd];
          }
          slots[i] := CloseSlot(slots[i]);
        }
      }
    }

    method Retire(fds: seq<int>)
      modifies this`sent, this`delivered, slots
      ensures State() == RetireStale(old(State()), fds, net)
    {
      ghost var all := RetireStale(State(), fds, net);
      for i := 0 to |fds|
        invariant lastSweep == old(lastSweep) && trace == old(trace)
        invariant all == RetireStale(State(), fds[i..], net)
      {
        assert fds[i..][1..] == fds[i + 1..];
        SendErrorAndClose(fds[i]);
      }
    }

    method Replay(fd: int, allocs: seq<bool>) returns (ok: bool)
      modifies this`sent, this`delivered, slots
      ensures (State(), ok) == SessionTable.Replay(old(State()), fd, allocs, net)
    {
      ghost var all := SessionTable.Replay(State(), fd, allocs, net);
      for i := 0 to |allocs|
        invariant lastSweep == old(lastSweep) && trace == old(trace)
        invariant all == SessionTable.Replay(State(), fd, allocs[i..], net)
      {
        assert allocs[i..][1..] == allocs[i + 1..];
        if !allocs[i] {
          var told := SendError(fd);
          return false;
        }
        var ok1 := SendText(fd, ReplayText);
        if !ok1 {
          CloseClient(fd);
          return false;
        }
      }
      return true;
    }

    method Synchronize(fd: int, r: JoinRequest) returns (ok: bool)
      modifies this`sent, this`delivered, slots
      ensures (State(), ok) == SessionTable.Synchronize(old(State()), fd, r, net)
    {
      ok := Replay(fd, r.replayAllocs);
      if ok {
        ok := SendText(fd, if r.infoAlloc then InfoText else ErrorText);
        ok := ok && r.infoAlloc;
      }
      if ok {
        var users := BuildOnlineUsers();
        ok := SendText(fd, UserList(users));
      }
    }

    method HandleJoin(fd: int, r: JoinRequest, now: int)
      modifies this`sent, this`delivered, slots
      ensures State() == SessionTable.HandleJoin(old(State()), fd, r, now, net)
    {
      if r.from.None? || r.name.None? || !r.sinceOk {
        SendErrorAndClose(fd);
        return;
      }
      var identity := CheckIdentity(fd, r.from);
      if identity.Mismatch? || !r.idsLoaded {
        SendErrorAndClose(fd);
        return;
      }
      var updated := UpdateIdentity(fd, r.from.value, r.name.value, now);
      if !updated {
        SendErrorAndClose(fd);
        return;
      }
      UpdateTimeSample(fd, r.sample);
      var synced := Synchronize(fd, r);
      if !synced {
        CloseClient(fd);
        return;
      }
      var converged := BroadcastOnlineUsers();
    }

    // ---- Messages ----

    method RequireJoinedIdentity(fd: int, from: Option<Text>, sample: Option<int>) returns (ok: bool)
      modifies this`sent, this`delivered, slots
      ensures (State(), ok) == RequireIdentity(old(State()), fd, from, sample, net)
    {
      var identity := CheckIdentity(fd, from);
      if !identity.Matches? {
        SendErrorAndClose(fd);
        return false;
      }
      UpdateTimeSample(fd, sample);
      return true;
    }

    method PresenceIf(changed: bool)
      modifies this`sent, this`delivered, slots
      ensures State() == SessionTable.PresenceIf(old(State()), changed, net)
    {
      if changed {
        var converged := BroadcastOnlineUsers();
      }
    }

    method HandleChat(fd: int, stored: bool, infoAlloc: bool)
      modifies this`sent, this`delivered, slots
      ensures State() == SessionTable.HandleChat(old(State()), fd, stored, infoAlloc, net)
    {
      if !stored {
        var told := SendError(fd);
        return;
      }
      var presenceChanged := Broadcast(ChatText);
      if infoAlloc {
        var closed := Broadcast(InfoText);
        presenceChanged := closed || presenceChanged;
      }
      PresenceIf(presenceChanged);
    }

    method HandleHistoryRequest(fd: int, relayed: bool)
      modifies this`sent, this`delivered, slots
      ensures State() == SessionTable.HandleHistoryRequest(old(State()), fd, relayed, net)
    {
      if !relayed {
        var told := SendError(fd);
        return;
      }
      var presenceChanged := Broadcast(RequestText);
      PresenceIf(presenceChanged);
    }

    method HandleHistoryResponse(fd: int, users: Option<set<Text>>)
      modifies this`sent, this`delivered, slots
      ensures State() == SessionTable.HandleHistoryResponse(old(State()), fd, users, net)
    {
      if users.None? {
        var told := SendError(fd);
        return;
      }
      var fds := [];
      for i := 0 to slots.Length
        invariant fds == RecipientFds(slots[..i], users.value)
      {
        assert slots[..i + 1][..i] == slots[..i];
        if !Recipient(slots[i], users.value) {
          continue;
        }
        fds := fds + [slots[i].fd];
      }
      assert slots[..slots.Length] == slots[..];
      var failed := SendToAll(fds, HistoryText);
      if failed {
        PresenceIf(true);
        var told := SendError(fd);
      }
    }

    method HandleIdentified(fd: int, m: Message)
      requires !m.Untyped? && !m.Join?
      modifies this`sent, this`delivered, slots
      ensures State() == SessionTable.HandleIdentified(old(State()), fd, m, net)
    {
      match m
      case Pong(_, _) => MarkAlive(fd);
      case GetOnlineUsers(_, _) =>
        var users := BuildOnlineUsers();
        var told := SendText(fd, UserList(users));
      case Chat(_, _, stored, infoAlloc) => HandleChat(fd, stored, infoAlloc);
      case HistoryRequest(_, _, relayed) => HandleHistoryRequest(fd, relayed);
      case HistoryResponse(_, _, users) => HandleHistoryResponse(fd, users);
      case UnknownType(_, _) => var told := SendError(fd);
    }

    method HandleMessage(fd: int, m: Message, now: int)
      modifies this`sent, this`delivered, slots
      ensures State() == SessionTable.HandleMessage(old(State()), fd, m, now, net)
    {
      if m.Untyped? {
        ErrorToStranger(fd);
        return;
      }
      if m.Join? {
        HandleJoin(fd, m.request, now);
        return;
      }
      var (from, sample) := Sender(m);
      var ok := RequireJoinedIdentity(fd, from, sample);
      if ok {
        HandleIdentified(fd, m);
      }
    }

    /** An error message, which a connection that has not joined does not survive. */
    method ErrorToStranger(fd: int)
      modifies this`sent, this`delivered, slots
      ensures State() == if SessionTable.IsJoined(old(slots[..]), fd) then SessionTable.SendError(old(State()), fd, net)
                         else SessionTable.SendErrorAndClose(old(State()), fd, net)
    {
      var told := SendError(fd);
      var joined := IsJoined(fd);
      if !joined {
        CloseClient(fd);
      }
    }

    // ---- Frames ----

    method CloseAndTell(fd: int)
      modifies this`sent, this`delivered, slots
      ensures State() == SessionTable.CloseAndTell(old(State()), fd, net)
    {
      var wasJoined := MarkClosing(fd);
      PresenceIf(wasJoined);
    }

    method HandlePong(fd: int, whole: bool)
      modifies slots
      ensures State() == SessionTable.HandlePong(old(State()), fd, whole)
    {
      var joined := IsJoined(fd);
      if !whole || !joined {
        CloseClient(fd);
      } else {
        MarkAlive(fd);
      }
    }

    method HandleFrame(fd: int, frame: Frame, now: int, later: int)
      requires Valid() && fd >= 0 && SessionSteps.GoodFrame(frame)
      modifies this, slots
      ensures Valid() && State() == SessionTable.HandleFrame(old(State()), fd, frame, now, later, net)
    {
      SessionRuns.StepIsGood(State(), SessionRuns.FrameArrives(fd, frame, now, later), Setting());
      var ready := Register(fd, now);
      if ready {
        Dispatch(fd, frame, later);
      }
    }

    method Dispatch(fd: int, frame: Frame, now: int)
      modifies this`sent, this`delivered, slots
      ensures State() == SessionTable.Dispatch(old(State()), fd, frame, now, net)
    {
      match frame
      case Broken => CloseAndTell(fd);
      case PongFrame(whole) => HandlePong(fd, whole);
      case EmptyFrame(isText) =>
        if isText {
          ErrorToStranger(fd);
        } else {
          SendErrorAndClose(fd);
        }
      case Oversize =>
        var told := SendError(fd);
        CloseAndTell(fd);
      case NoBuffer =>
      case CloseFrame => CloseAndTell(fd);
      case WrongKind => SendErrorAndClose(fd);
      case BadJson => ErrorToStranger(fd);
      case Payload(m) => HandleMessage(fd, m, now);
    }

    method PreHandshake(fd: int, now: int) returns (ready: bool)
      requires Valid() && fd >= 0
      modifies this`trace, slots
      ensures Valid() && (State(), ready) == Admit(old(State()), fd, now)
    {
      SessionRuns.StepIsGood(State(), SessionRuns.Handshakes(fd, now), Setting());
      ready := Register(fd, now);
    }

    /** The slot guard in front of handshakes and frames. */
    method Register(fd: int, now: int) returns (ready: bool)
      modifies this`trace, slots
      ensures (State(), ready) == Admit(old(State()), fd, now)
    {
      ready := EnsureSlot(fd, now);
      if ready {
        trace := trace + [Traffic(fd, now)];
      }
    }

    method SessionClosed(fd: int)
      requires Valid()
      modifies this`sent, this`delivered, slots
      ensures Valid() && State() == SessionTable.SessionClosed(old(State()), fd, net)
    {
      SessionRuns.StepIsGood(State(), SessionRuns.Closes(fd), Setting());
      var removed := RemoveByFd(fd);
      delivered := delivered - {fd};
      PresenceIf(removed);
    }

    // ---- The heartbeat sweep ----

    method Sweep(now: int)
      requires Valid()
      modifies this, slots
      ensures Valid() && State() == SessionTable.Sweep(old(State()), now, h, net)
    {
      SessionRuns.StepIsGood(State(), SessionRuns.Sweeps(now), Setting());
      var delayed := now - lastSweep > h;
      lastSweep := now;
      var changed, closeFds, pingFds := SweepLocked(now, delayed);
      for i := 0 to |closeFds|
        invariant lastSweep == now && sent == old(sent) && delivered == old(delivered)
        invariant trace == old(trace) + Observe(old(slots[..]), slots.Length, now, delayed, h, |sent|)
        invariant CloseAll(State(), closeFds[i..]) ==
                  CloseAll(World(SweepSlots(old(slots[..]), now, delayed, h), now, old(delivered), old(sent), trace),
                           closeFds)
      {
        assert closeFds[i..][1..] == closeFds[i + 1..];
        CloseClient(closeFds[i]);
      }
      var failed := SendToAll(pingFds, PingText);
      PresenceIf(changed || failed);
    }

    /** The sweep's locked section: every slot is judged once. */
    method SweepLocked(now: int, delayed: bool) returns (changed: bool, closeFds: seq<int>, pingFds: seq<int>)
      modifies this`trace, slots
      ensures slots[..] == SweepSlots(old(slots[..]), now, delayed, h)
      ensures trace == old(trace) + Observe(old(slots[..]), slots.Length, now, delayed, h, |sent|)
      ensures (changed, closeFds, pingFds) == Findings(old(slots[..]), slots.Length, now, delayed, h)
    {
      ghost var before := slots[..];
      changed, closeFds, pingFds := false, [], [];
      for i := 0 to slots.Length
        invariant forall k :: 0 <= k < i ==> slots[k] == SweepSlots(before, now, delayed, h)[k]
        invariant forall k :: i <= k < slots.Length ==> slots[k] == before[k]
        invariant trace == old(trace)
        invariant (changed, closeFds, pingFds) == Findings(before, i, now, delayed, h)
      {
        var action := JudgeSlot(i, now, delayed);
        closeFds := if action == CloseUnjoined || action == CloseMissed then closeFds + [slots[i].fd] else closeFds;
        changed := changed || action == CloseMissed;
        pingFds := if action == Ping then pingFds + [slots[i].fd] else pingFds;
      }
      trace := trace + Observe(before, |before|, now, delayed, h, |sent|);
    }

    method JudgeSlot(i: nat, now: int, delayed: bool) returns (action: Action)
      requires i < slots.Length
      modifies slots
      ensures slots[..] == old(slots[..])[i := Judge(old(slots[i]), now, delayed, h).0]
      ensures action == Judge(old(slots[i]), now, delayed, h).1
      ensures slots[i].fd == old(slots[i].fd)
    {
      if !slots[i].active || slots[i].closing {
        return Keep;
      }
      if !slots[i].joined {
        if delayed {
          slots[i] := slots[i].(registeredAt := now);
          return Keep;
        }
        if now - slots[i].registeredAt < WS_JOIN_TIMEOUT_S {
          return Keep;
        }
        slots[i] := CloseSlot(slots[i]);
        return CloseUnjoined;
      }
      if delayed && !slots[i].isAlive {
        slots[i] := slots[i].(isAlive := true);
        slots[i] := slots[i].(lastPing := now - h);
      }
      if !slots[i].isAlive {
        if now - slots[i].lastPing < h {
          return Keep;
        }
        slots[i] := CloseSlot(slots[i]);
        return CloseMissed;
      }
      if now - slots[i].lastPing < h {
        return Keep;
      }
      slots[i] := slots[i].(isAlive := false);
      slots[i] := slots[i].(lastPing := now);
      return Ping;
    }
  }

  // ---- A search that has succeeded keeps its result ----

  lemma {:induction false} OnFoundStays(slots: seq<Slot>, n: nat, m: nat, fd: int)
    requires n <= m <= |slots| && FirstOn(slots, n, fd) >= 0
    ensures FirstOn(slots, m, fd) == FirstOn(slots, n, fd)
  {
    if n < m {
      OnFoundStays(slots, n, m - 1, fd);
    }
  }

  lemma {:induction false} OpenFoundStays(slots: seq<Slot>, n: nat, m: nat, fd: int)
    requires n <= m <= |slots| && FirstOpen(slots, n, fd) >= 0
    ensures FirstOpen(slots, m, fd) == FirstOpen(slots, n, fd)
  {
    if n < m {
      OpenFoundStays(slots, n, m - 1, fd);
    }
  }

  lemma {:induction false} OpenJoinedFoundStays(slots: seq<Slot>, n: nat, m: nat, fd: int)
    requires n <= m <= |slots| && FirstOpenJoined(slots, n, fd) >= 0
    ensures FirstOpenJoined(slots, m, fd) == FirstOpenJoined(slots, n, fd)
  {
    if n < m {
      OpenJoinedFoundStays(slots, n, m - 1, fd);
    }
  }

  lemma {:induction false} FreeFoundStays(slots: seq<Slot>, n: nat, m: nat)
    requires n <= m <= |slots| && FirstFree(slots, n) >= 0
    ensures FirstFree(slots, m) == FirstFree(slots, n)
  {
    if n < m {
      FreeFoundStays(slots, n, m - 1);
    }
  }

}
