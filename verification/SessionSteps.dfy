/** What each handler, sweep and close callback keeps of the client table. */
module SessionSteps {
  import opened ChatTypes
  import opened SessionTable
  import opened SessionFacts

  /** Slots of other connections are as before or closed, and no such slot appears. */
  predicate OthersOnlyClose(s: seq<Slot>, t: seq<Slot>, fd: int) {
    |s| == |t| && forall i :: 0 <= i < |s| ==>
      && (s[i].active && s[i].fd != fd ==> t[i] == s[i] || t[i] == CloseSlot(s[i]))
      && (t[i].active && t[i].fd != fd ==> s[i].active && s[i].fd == t[i].fd)
  }

  /** A closing slot stays closing and a joined one keeps its user until it closes. */
  predicate KeepsIdentity(s: Slot, t: Slot) {
    s.active ==>
      && t.active && t.fd == s.fd
      && (s.closing ==> t.closing)
      && (s.joined ==> t.closing || (t.joined && t.userId == s.userId))
  }

  predicate KeepsIdentities(s: seq<Slot>, t: seq<Slot>) {
    |s| == |t| && forall i :: 0 <= i < |s| ==> KeepsIdentity(s[i], t[i])
  }

  /** No joined slot loses its sign of life except by closing. */
  predicate KeepsAlive(s: seq<Slot>, t: seq<Slot>) {
    |s| == |t| && forall i :: 0 <= i < |s| && Member(t[i]) && !t[i].isAlive ==>
      Member(s[i]) && !s[i].isAlive && t[i].fd == s[i].fd && t[i].lastPing == s[i].lastPing
  }

  /** A slot's times stay, unless a join or a registration at `now` sets both. */
  predicate KeepsPings(s: seq<Slot>, t: seq<Slot>, now: int) {
    |s| == |t| && forall i :: 0 <= i < |s| && t[i].active ==>
      || (s[i].active && t[i].lastPing == s[i].lastPing && t[i].registeredAt == s[i].registeredAt)
      || t[i].lastPing == t[i].registeredAt == now
  }

  /** What the handling of an admitted frame on `fd` at `now` may do. */
  predicate After(w: World, w': World, fd: int, now: int) {
    && w'.lastSweep == w.lastSweep && w'.trace == w.trace && w.sent <= w'.sent
    && OthersOnlyClose(w.slots, w'.slots, fd)
    && KeepsIdentities(w.slots, w'.slots)
    && KeepsAlive(w.slots, w'.slots)
    && KeepsPings(w.slots, w'.slots, now)
  }

  predicate Good(w: World) {
    TableOk(w.slots) && PresenceOk(w)
  }

  predicate AnyOpen(slots: seq<Slot>, fd: int) {
    exists i :: 0 <= i < |slots| && Open(slots[i], fd)
  }

  lemma AfterTrans(a: World, b: World, c: World, fd: int, now: int)
    requires After(a, b, fd, now) && After(b, c, fd, now)
    ensures After(a, c, fd, now)
  {
    forall i | 0 <= i < |a.slots|
      ensures a.slots[i].active && a.slots[i].fd != fd ==>
                c.slots[i] == a.slots[i] || c.slots[i] == CloseSlot(a.slots[i])
    {
      assert CloseSlot(CloseSlot(a.slots[i])) == CloseSlot(a.slots[i]);
    }
    forall i | 0 <= i < |a.slots| ensures KeepsIdentity(a.slots[i], c.slots[i]) {
      assert KeepsIdentity(a.slots[i], b.slots[i]) && KeepsIdentity(b.slots[i], c.slots[i]);
    }
  }

  lemma OnlyClosesIsAfter(w: World, w': World, fd: int, now: int)
    requires OnlyCloses(w, w')
    ensures After(w, w', fd, now)
  {
  }

  lemma OnlyClosesTrans(a: World, b: World, c: World)
    requires OnlyCloses(a, b) && OnlyCloses(b, c)
    ensures OnlyCloses(a, c)
  {
    ShrinksTrans(a.slots, b.slots, c.slots);
  }

  // ---- Handlers that only send and close ----

  lemma ErrorAndClose(w: World, fd: int, net: Net)
    requires Good(w)
    ensures Good(SendErrorAndClose(w, fd, net)) && OnlyCloses(w, SendErrorAndClose(w, fd, net))
  {
    CloseKeepsPresence(SendError(w, fd, net), fd);
  }

  lemma CloseOnly(w: World, fd: int)
    requires Good(w)
    ensures Good(CloseClient(w, fd)) && OnlyCloses(w, CloseClient(w, fd))
  {
    CloseKeepsPresence(w, fd);
  }

  lemma PresenceIfGood(w: World, changed: bool, net: Net)
    requires Good(w)
    ensures Good(PresenceIf(w, changed, net)) && OnlyCloses(w, PresenceIf(w, changed, net))
  {
    PresenceAfterBroadcast(w, net);
    PresenceIfCloses(w, changed, net);
  }

  lemma CloseAndTellGood(w: World, fd: int, net: Net)
    requires Good(w)
    ensures Good(CloseAndTell(w, fd, net)) && OnlyCloses(w, CloseAndTell(w, fd, net))
  {
    CloseOnly(w, fd);
    var w1 := CloseClient(w, fd);
    PresenceIfGood(w1, AnyJoinedOn(w.slots, fd), net);
    OnlyClosesTrans(w, w1, CloseAndTell(w, fd, net));
  }

  lemma BroadcastToGood(w: World, fds: seq<int>, packet: Packet, net: Net)
    requires Good(w) && !packet.UserList?
    ensures var w' := BroadcastTo(w, fds, packet, net).0; Good(w') && OnlyCloses(w, w')
  {
    BroadcastKeepsPresence(w, fds, packet, net);
    BroadcastToCloses(w, fds, packet, net);
  }

  lemma ChatGood(w: World, fd: int, stored: bool, infoAlloc: bool, net: Net)
    requires Good(w)
    ensures Good(HandleChat(w, fd, stored, infoAlloc, net)) && OnlyCloses(w, HandleChat(w, fd, stored, infoAlloc, net))
  {
    if stored {
      var (w1, closed1) := Broadcast(w, ChatText, net);
      BroadcastToGood(w, MemberFds(w.slots), ChatText, net);
      var (w2, closed2) := if infoAlloc then Broadcast(w1, InfoText, net) else (w1, false);
      BroadcastToGood(w1, MemberFds(w1.slots), InfoText, net);
      OnlyClosesTrans(w, w1, w2);
      PresenceIfGood(w2, closed1 || closed2, net);
      OnlyClosesTrans(w, w2, HandleChat(w, fd, stored, infoAlloc, net));
    }
  }

  lemma HistoryRequestGood(w: World, fd: int, relayed: bool, net: Net)
    requires Good(w)
    ensures Good(HandleHistoryRequest(w, fd, relayed, net)) && OnlyCloses(w, HandleHistoryRequest(w, fd, relayed, net))
  {
    if relayed {
      var (w1, closed) := Broadcast(w, RequestText, net);
      BroadcastToGood(w, MemberFds(w.slots), RequestText, net);
      PresenceIfGood(w1, closed, net);
      OnlyClosesTrans(w, w1, PresenceIf(w1, closed, net));
    }
  }

  lemma HistoryResponseGood(w: World, fd: int, users: Option<set<Text>>, net: Net)
    requires Good(w)
    ensures var w' := HandleHistoryResponse(w, fd, users, net); Good(w') && OnlyCloses(w, w')
  {
    if users.Some? {
      var fds := RecipientFds(w.slots, users.value);
      var (w1, failed) := BroadcastTo(w, fds, HistoryText, net);
      BroadcastToGood(w, fds, HistoryText, net);
      PresenceIfGood(w1, true, net);
      OnlyClosesTrans(w, w1, BroadcastPresence(w1, net));
    }
  }

  // ---- Handlers that touch the sender's slot ----

  /** A pong revives at most the connection's own joined slot. */
  predicate Revives(s: seq<Slot>, t: seq<Slot>, fd: int) {
    |s| == |t| && forall i :: 0 <= i < |s| ==>
      t[i] == s[i] || (OpenJoined(s[i], fd) && t[i] == s[i].(isAlive := true))
  }

  lemma RevivalKeepsTable(s: seq<Slot>, t: seq<Slot>, fd: int)
    requires TableOk(s) && Revives(s, t, fd)
    ensures TableOk(t)
  {
  }

  lemma RevivalIsAfter(s: seq<Slot>, t: seq<Slot>, fd: int, now: int)
    requires Revives(s, t, fd)
    ensures OthersOnlyClose(s, t, fd) && KeepsIdentities(s, t) && KeepsAlive(s, t) && KeepsPings(s, t, now)
  {
  }

  lemma MarkAliveGood(w: World, fd: int, now: int)
    requires Good(w)
    ensures var w' := w.(slots := MarkAlive(w.slots, fd)); Good(w') && After(w, w', fd, now)
  {
    var w' := w.(slots := MarkAlive(w.slots, fd));
    FirstOpenJoinedFinds(w.slots, |w.slots|, fd);
    assert Revives(w.slots, w'.slots, fd);
    RevivalKeepsTable(w.slots, w'.slots, fd);
    RevivalIsAfter(w.slots, w'.slots, fd, now);
    TouchKeepsPresence(w, w');
  }

  /** A pong revives the connection's joined slot. */
  lemma MarkAliveExactly(slots: seq<Slot>, fd: int, i: nat)
    requires TableOk(slots) && i < |slots| && OpenJoined(slots[i], fd)
    ensures MarkAlive(slots, fd) == slots[i := slots[i].(isAlive := true)]
  {
    FirstOpenJoinedFinds(slots, |slots|, fd);
  }

  /** Two tables that differ in clock samples only. */
  predicate SamplesDiffer(s: seq<Slot>, t: seq<Slot>) {
    |s| == |t| && forall i :: 0 <= i < |s| ==>
      t[i] == s[i].(timeOffset := t[i].timeOffset, timeOffsetValid := t[i].timeOffsetValid)
  }

  lemma SampleTouches(slots: seq<Slot>, fd: int, sample: Option<int>)
    ensures SamplesDiffer(slots, UpdateTimeSample(slots, fd, sample))
    ensures forall i :: 0 <= i < |slots| && slots[i] != UpdateTimeSample(slots, fd, sample)[i] ==>
                          OpenJoined(slots[i], fd)
  {
    FirstOpenJoinedFinds(slots, |slots|, fd);
  }

  /** A valid sample ends up in the connection's joined slot. */
  lemma SampleIsRecorded(slots: seq<Slot>, fd: int, offset: int, i: nat)
    requires TableOk(slots) && i < |slots| && OpenJoined(slots[i], fd)
    ensures var t := UpdateTimeSample(slots, fd, Some(offset));
            t == slots[i := slots[i].(timeOffset := offset, timeOffsetValid := true)]
  {
    FirstOpenJoinedFinds(slots, |slots|, fd);
  }

  /** What the identity check says of a connection. */
  lemma IdentityExactly(slots: seq<Slot>, fd: int, user: Option<Text>)
    requires TableOk(slots)
    ensures var status := CheckIdentity(slots, fd, user);
            && (status.NotJoined? <==> !MemberOn(slots, fd))
            && (status.Matches? <==> exists i :: 0 <= i < |slots| && Member(slots[i]) && slots[i].fd == fd
                                            && user == Some(slots[i].userId))
  {
    FirstOpenFinds(slots, |slots|, fd);
    var i := FirstOpen(slots, |slots|, fd);
    if j :| 0 <= j < |slots| && Member(slots[j]) && slots[j].fd == fd {
      assert Open(slots[j], fd) && i == j;
    }
    if i >= 0 && slots[i].joined {
      assert Member(slots[i]);
    }
  }

  lemma SamplesKeepTable(s: seq<Slot>, t: seq<Slot>)
    requires TableOk(s) && SamplesDiffer(s, t)
    ensures TableOk(t)
  {
  }

  lemma SamplesAreAfter(s: seq<Slot>, t: seq<Slot>, fd: int, now: int)
    requires SamplesDiffer(s, t) && forall i :: 0 <= i < |s| && s[i] != t[i] ==> OpenJoined(s[i], fd)
    ensures OthersOnlyClose(s, t, fd) && KeepsIdentities(s, t) && KeepsAlive(s, t)
    ensures KeepsPings(s, t, now)
  {
  }

  lemma TimeSampleGood(w: World, fd: int, sample: Option<int>, now: int)
    requires TableOk(w.slots)
    ensures var w' := w.(slots := UpdateTimeSample(w.slots, fd, sample));
            TableOk(w'.slots) && After(w, w', fd, now) && (PresenceOk(w) ==> PresenceOk(w'))
  {
    var w' := w.(slots := UpdateTimeSample(w.slots, fd, sample));
    SampleTouches(w.slots, fd, sample);
    SamplesKeepTable(w.slots, w'.slots);
    SamplesAreAfter(w.slots, w'.slots, fd, now);
    if PresenceOk(w) {
      TouchKeepsPresence(w, w');
    }
  }

  lemma RequireIdentityGood(w: World, fd: int, from: Option<Text>, sample: Option<int>, now: int, net: Net)
    requires Good(w)
    ensures var w' := RequireIdentity(w, fd, from, sample, net).0; Good(w') && After(w, w', fd, now)
  {
    ErrorAndClose(w, fd, net);
    OnlyClosesIsAfter(w, SendErrorAndClose(w, fd, net), fd, now);
    TimeSampleGood(w, fd, sample, now);
  }

  // ---- Joining ----

  predicate JoinResult(s: seq<Slot>, t: seq<Slot>, fd: int, user: Text, name: Text, now: int) {
    |s| == |t| && forall i :: 0 <= i < |s| ==>
      t[i] == if Open(s[i], fd) then JoinSlot(s[i], fd, user, name, now)
              else if Stale(s[i], user) then CloseSlot(s[i]) else s[i]
  }

  lemma JoinTargetIsOwnSlot(slots: seq<Slot>, fd: int)
    requires TableOk(slots) && AnyOpen(slots, fd)
    ensures 0 <= JoinTarget(slots, fd) < |slots| && Open(slots[JoinTarget(slots, fd)], fd)
    ensures forall i :: 0 <= i < |slots| && i != JoinTarget(slots, fd) ==> !On(slots[i], fd)
  {
    LastOpenFinds(slots, |slots|, fd);
  }

  lemma CloseStaleTable(slots: seq<Slot>, target: nat, fd: int, user: Text, name: Text, now: int)
    requires TableOk(slots) && target < |slots| && Open(slots[target], fd) && user != []
    ensures TableOk(CloseStale(slots[target := JoinSlot(slots[target], fd, user, name, now)], target, user))
  {
  }

  /** A slot bound by a join; its clock sample stays only if the same user joins again. */
  predicate BoundTo(s: Slot, t: Slot, fd: int, user: Text, name: Text, now: int) {
    && t.active && !t.closing && t.joined && t.isAlive && t.fd == fd && t.userId == user && t.name == name
    && t.lastPing == now && t.registeredAt == now
    && (if s.userId == user then t.timeOffsetValid == s.timeOffsetValid && t.timeOffset == s.timeOffset
        else !t.timeOffsetValid)
  }

  /** A join binds the connection's own slot, closes the user's other sessions and touches nothing else. */
  lemma UpdateIdentityJoins(w: World, fd: int, user: Text, name: Text, now: int, net: Net)
    requires TableOk(w.slots) && AnyOpen(w.slots, fd) && user != []
    ensures var (w', ok) := UpdateIdentity(w, fd, user, name, now, net);
            && ok && TableOk(w'.slots) && JoinResult(w.slots, w'.slots, fd, user, name, now)
            && (forall i :: 0 <= i < |w.slots| && Open(w.slots[i], fd) ==>
                              BoundTo(w.slots[i], w'.slots[i], fd, user, name, now))
            && w'.trace == w.trace && w'.lastSweep == w.lastSweep && w.sent <= w'.sent
  {
    var target := JoinTarget(w.slots, fd);
    JoinTargetIsOwnSlot(w.slots, fd);
    var s1 := w.slots[target := JoinSlot(w.slots[target], fd, user, name, now)];
    var s2 := CloseStale(s1, target, user);
    CloseStaleTable(w.slots, target, fd, user, name, now);
    var stale := StaleFds(s1, |s1|, target, fd, user);
    StaleFdsMeaning(s1, |s1|, target, fd, user);
    var w2 := w.(slots := s2);
    RetireStaleCloses(w2, stale, net);
    var w' := RetireStale(w2, stale, net);
    ShrinksKeepsTable(s2, w'.slots);
    assert s2[target].fd == fd && w'.slots[target] == s2[target];
    forall i | 0 <= i < |w.slots| && i != target
      ensures w'.slots[i] == if Stale(w.slots[i], user) then CloseSlot(w.slots[i]) else w.slots[i]
    {
      assert CloseSlot(CloseSlot(w.slots[i])) == CloseSlot(w.slots[i]);
      if w.slots[i].active && !Stale(w.slots[i], user) && s2[i].fd in stale {
        assert false;
      }
    }
  }

  lemma JoinResultIsAfter(w: World, w': World, fd: int, user: Text, name: Text, now: int)
    requires TableOk(w.slots) && JoinResult(w.slots, w'.slots, fd, user, name, now)
    requires w'.trace == w.trace && w'.lastSweep == w.lastSweep && w.sent <= w'.sent
    requires !CheckIdentity(w.slots, fd, Some(user)).Mismatch?
    ensures After(w, w', fd, now)
  {
    FirstOpenFinds(w.slots, |w.slots|, fd);
    forall i | 0 <= i < |w.slots| ensures KeepsIdentity(w.slots[i], w'.slots[i]) {
      if Open(w.slots[i], fd) && w.slots[i].joined {
        assert FirstOpen(w.slots, |w.slots|, fd) == i;
        assert w.slots[i].userId == user;
      }
    }
  }

  lemma AnyOnKept(s: seq<Slot>, t: seq<Slot>, fd: int)
    requires AnyOn(s, fd) && KeepsIdentities(s, t)
    ensures AnyOn(t, fd)
  {
    var i :| 0 <= i < |s| && On(s[i], fd);
    assert KeepsIdentity(s[i], t[i]) && On(t[i], fd);
  }

  /** The part of a join before the presence broadcast. */
  lemma JoinBinds(w: World, fd: int, user: Text, name: Text, sample: Option<int>, now: int, net: Net)
    requires Good(w) && AnyOpen(w.slots, fd) && user != []
    requires !CheckIdentity(w.slots, fd, Some(user)).Mismatch?
    ensures var (w1, ok) := UpdateIdentity(w, fd, user, name, now, net);
            var w2 := w1.(slots := UpdateTimeSample(w1.slots, fd, sample));
            ok && TableOk(w2.slots) && After(w, w2, fd, now)
  {
    UpdateIdentityJoins(w, fd, user, name, now, net);
    var w1 := UpdateIdentity(w, fd, user, name, now, net).0;
    JoinResultIsAfter(w, w1, fd, user, name, now);
    TimeSampleGood(w1, fd, sample, now);
    AfterTrans(w, w1, w1.(slots := UpdateTimeSample(w1.slots, fd, sample)), fd, now);
  }

  /** The part of a join that synchronizes the connection and tells everyone, or closes it. */
  lemma JoinFinishes(w: World, fd: int, r: JoinRequest, now: int, net: Net)
    requires TableOk(w.slots) && AnyOn(w.slots, fd)
    ensures var (w1, synced) := Synchronize(w, fd, r, net);
            var w' := if synced then BroadcastPresence(w1, net) else CloseClient(w1, fd);
            Good(w') && After(w, w', fd, now)
  {
    var (w1, synced) := Synchronize(w, fd, r, net);
    SynchronizeCloses(w, fd, r, net);
    ShrinksKeepsTable(w.slots, w1.slots);
    var w' := if synced then BroadcastPresence(w1, net) else CloseClient(w1, fd);
    if synced {
      PresenceAfterBroadcast(w1, net);
      PresenceBroadcastConverges(w1, net);
    } else {
      AnyOnKept(w.slots, w1.slots, fd);
      CloseMakesClosing(w1, fd);
    }
    OnlyClosesTrans(w, w1, w');
    OnlyClosesIsAfter(w, w', fd, now);
  }

  predicate JoinRefused(w: World, fd: int, r: JoinRequest) {
    r.from.None? || r.name.None? || !r.sinceOk || CheckIdentity(w.slots, fd, r.from).Mismatch? || !r.idsLoaded
  }

  lemma OpenIsOn(slots: seq<Slot>, fd: int)
    requires AnyOpen(slots, fd)
    ensures AnyOn(slots, fd)
  {
    var i :| 0 <= i < |slots| && Open(slots[i], fd);
    assert On(slots[i], fd);
  }

  lemma JoinGood(w: World, fd: int, r: JoinRequest, now: int, net: Net)
    requires Good(w) && AnyOpen(w.slots, fd)
    requires r.from.Some? ==> r.from.value != []
    ensures Good(HandleJoin(w, fd, r, now, net)) && After(w, HandleJoin(w, fd, r, now, net), fd, now)
  {
    if JoinRefused(w, fd, r) {
      ErrorAndClose(w, fd, net);
      OnlyClosesIsAfter(w, SendErrorAndClose(w, fd, net), fd, now);
    } else {
      JoinBinds(w, fd, r.from.value, r.name.value, r.sample, now, net);
      var w1 := UpdateIdentity(w, fd, r.from.value, r.name.value, now, net).0;
      var w2 := w1.(slots := UpdateTimeSample(w1.slots, fd, r.sample));
      OpenIsOn(w.slots, fd);
      AnyOnKept(w.slots, w2.slots, fd);
      JoinFinishes(w2, fd, r, now, net);
      AfterTrans(w, w2, HandleJoin(w, fd, r, now, net), fd, now);
    }
  }

  // ---- Frames ----

  predicate GoodMessage(m: Message) {
    m.Join? && m.request.from.Some? ==> m.request.from.value != []
  }

  lemma MessageGood(w: World, fd: int, m: Message, now: int, net: Net)
    requires Good(w) && AnyOpen(w.slots, fd) && GoodMessage(m)
    ensures Good(HandleMessage(w, fd, m, now, net)) && After(w, HandleMessage(w, fd, m, now, net), fd, now)
  {
    if m.Untyped? {
      ErrorAndClose(w, fd, net);
      OnlyClosesIsAfter(w, HandleMessage(w, fd, m, now, net), fd, now);
    } else if m.Join? {
      JoinGood(w, fd, m.request, now, net);
    } else {
      var (from, sample) := Sender(m);
      RequireIdentityGood(w, fd, from, sample, now, net);
      var (w1, ok) := RequireIdentity(w, fd, from, sample, net);
      if ok {
        IdentifiedGood(w1, fd, m, now, net);
        AfterTrans(w, w1, HandleMessage(w, fd, m, now, net), fd, now);
      }
    }
  }

  /** The handling of a message once its sender is known to match. */
  lemma IdentifiedGood(w1: World, fd: int, m: Message, now: int, net: Net)
    requires Good(w1) && !m.Untyped? && !m.Join?
    ensures Good(HandleIdentified(w1, fd, m, net)) && After(w1, HandleIdentified(w1, fd, m, net), fd, now)
  {
    var w' := HandleIdentified(w1, fd, m, net);
    if m.Pong? {
      MarkAliveGood(w1, fd, now);
    } else {
      match m {
        case GetOnlineUsers(_, _) => SendKeepsPresence(w1, fd, UserList(RosterOf(w1.slots)), net);
        case Chat(_, _, stored, infoAlloc) => ChatGood(w1, fd, stored, infoAlloc, net);
        case HistoryRequest(_, _, relayed) => HistoryRequestGood(w1, fd, relayed, net);
        case HistoryResponse(_, _, users) => HistoryResponseGood(w1, fd, users, net);
        case UnknownType(_, _) =>
      }
      OnlyClosesIsAfter(w1, w', fd, now);
    }
  }

  predicate GoodFrame(frame: Frame) {
    frame.Payload? ==> GoodMessage(frame.message)
  }

  /** Frames that only send and close. */
  lemma PlainFrameGood(w: World, fd: int, frame: Frame, now: int, net: Net)
    requires Good(w) && !frame.PongFrame? && !frame.Payload?
    ensures Good(Dispatch(w, fd, frame, now, net)) && OnlyCloses(w, Dispatch(w, fd, frame, now, net))
  {
    var w1 := SendError(w, fd, net);
    match frame
    case Broken => CloseAndTellGood(w, fd, net);
    case EmptyFrame(isText) => ErrorAndClose(w, fd, net);
    case Oversize => CloseAndTellGood(w1, fd, net);
    case NoBuffer =>
    case CloseFrame => CloseAndTellGood(w, fd, net);
    case WrongKind => ErrorAndClose(w, fd, net);
    case BadJson => ErrorAndClose(w, fd, net);
  }

  lemma DispatchGood(w: World, fd: int, frame: Frame, now: int, net: Net)
    requires Good(w) && AnyOpen(w.slots, fd) && GoodFrame(frame)
    ensures Good(Dispatch(w, fd, frame, now, net)) && After(w, Dispatch(w, fd, frame, now, net), fd, now)
  {
    match frame
    case PongFrame(whole) =>
      CloseOnly(w, fd);
      OnlyClosesIsAfter(w, CloseClient(w, fd), fd, now);
      MarkAliveGood(w, fd, now);
    case Payload(m) => MessageGood(w, fd, m, now, net);
    case _ =>
      PlainFrameGood(w, fd, frame, now, net);
      OnlyClosesIsAfter(w, Dispatch(w, fd, frame, now, net), fd, now);
  }

  /** Admission touches only the connection's own slot, or gives it a free one. */
  predicate Admits(s: seq<Slot>, t: seq<Slot>, fd: int, now: int) {
    |s| == |t| && AnyOpen(t, fd) && forall i :: 0 <= i < |s| ==>
      || t[i] == s[i]
      || (Open(s[i], fd) && t[i] == s[i].(isAlive := true))
      || (!s[i].active && Open(t[i], fd) && !t[i].joined && t[i].isAlive && t[i].userId == []
          && t[i].lastPing == t[i].registeredAt == now)
  }

  lemma AdmitAdmits(w: World, fd: int, now: int)
    requires Admit(w, fd, now).1
    ensures Admits(w.slots, Admit(w, fd, now).0.slots, fd, now)
  {
    FirstOnFinds(w.slots, |w.slots|, fd);
    FirstFreeFinds(w.slots, |w.slots|);
    var w' := Admit(w, fd, now).0;
    var known := FirstOn(w.slots, |w.slots|, fd);
    var i := if known >= 0 then known else FirstFree(w.slots, |w.slots|);
    assert Open(w'.slots[i], fd);
  }

  /** A connection is admitted exactly if it has an open slot, or none and there is a free one. */
  lemma AdmitExactly(w: World, fd: int, now: int)
    requires TableOk(w.slots)
    ensures Admit(w, fd, now).1 <==>
            AnyOpen(w.slots, fd) || (!AnyOn(w.slots, fd) && exists i :: 0 <= i < |w.slots| && !w.slots[i].active)
  {
    FirstOnFinds(w.slots, |w.slots|, fd);
    FirstFreeFinds(w.slots, |w.slots|);
    var i := FirstOn(w.slots, |w.slots|, fd);
    if AnyOpen(w.slots, fd) {
      var j :| 0 <= j < |w.slots| && Open(w.slots[j], fd);
      assert On(w.slots[j], fd) && i == j;
    }
  }

  lemma AdmitTable(w: World, fd: int, now: int)
    requires TableOk(w.slots) && fd >= 0 && Admit(w, fd, now).1
    ensures var t := Admit(w, fd, now).0.slots;
            TableOk(t) && forall i :: 0 <= i < |t| && On(t[i], fd) ==> t[i].isAlive
  {
    FirstOnFinds(w.slots, |w.slots|, fd);
    FirstFreeFinds(w.slots, |w.slots|);
  }

  lemma AdmitsKeeps(s: seq<Slot>, t: seq<Slot>, fd: int, now: int)
    requires Admits(s, t, fd, now)
    ensures OthersOnlyClose(s, t, fd) && KeepsIdentities(s, t) && KeepsAlive(s, t) && KeepsPings(s, t, now)
  {
  }

  lemma AdmitPresence(w: World, fd: int, now: int)
    requires Good(w) && Admit(w, fd, now).1
    ensures PresenceOk(Admit(w, fd, now).0)
  {
    AdmitAdmits(w, fd, now);
    TouchKeepsPresence(w, Admit(w, fd, now).0);
  }

  lemma AdmitGood(w: World, fd: int, now: int)
    requires Good(w) && fd >= 0 && Admit(w, fd, now).1
    ensures var w' := Admit(w, fd, now).0;
            && Good(w') && w'.lastSweep == w.lastSweep && w'.sent == w.sent && w'.trace == w.trace + [Traffic(fd, now)]
            && OthersOnlyClose(w.slots, w'.slots, fd) && KeepsIdentities(w.slots, w'.slots)
            && KeepsAlive(w.slots, w'.slots) && KeepsPings(w.slots, w'.slots, now) && AnyOpen(w'.slots, fd)
            && (forall i :: 0 <= i < |w'.slots| && On(w'.slots[i], fd) ==> w'.slots[i].isAlive)
  {
    AdmitAdmits(w, fd, now);
    AdmitsKeeps(w.slots, Admit(w, fd, now).0.slots, fd, now);
    AdmitTable(w, fd, now);
    AdmitPresence(w, fd, now);
  }

  // ---- The close callback ----

  lemma RemoveTable(slots: seq<Slot>, fd: int)
    requires TableOk(slots)
    ensures TableOk(Remove(slots, fd)) && OthersOnlyClose(slots, Remove(slots, fd), fd)
    ensures !AnyOn(slots, fd) ==> Remove(slots, fd) == slots
    ensures !AnyOn(Remove(slots, fd), fd)
  {
  }

  lemma SessionClosedGood(w: World, fd: int, net: Net)
    requires Good(w)
    ensures var w' := SessionClosed(w, fd, net);
            && Good(w') && w'.lastSweep == w.lastSweep && w'.trace == w.trace && w.sent <= w'.sent
            && OthersOnlyClose(w.slots, w'.slots, fd)
            && (forall i :: 0 <= i < |w'.slots| ==> !On(w'.slots[i], fd))
            && (forall i :: 0 <= i < |w.slots| && w.slots[i].active && w.slots[i].fd != fd ==>
                              KeepsIdentity(w.slots[i], w'.slots[i]))
            && KeepsAlive(w.slots, w'.slots)
            && (forall i :: 0 <= i < |w'.slots| && w'.slots[i].active ==>
                              && w.slots[i].active && w'.slots[i].lastPing == w.slots[i].lastPing
                              && w'.slots[i].registeredAt == w.slots[i].registeredAt)
  {
    RemoveTable(w.slots, fd);
    var w1 := w.(slots := Remove(w.slots, fd), delivered := w.delivered - {fd});
    var w' := SessionClosed(w, fd, net);
    PresenceAfterBroadcast(w1, net);
    PresenceIfCloses(w1, AnyOn(w.slots, fd), net);
    forall i | 0 <= i < |w'.slots| ensures !On(w'.slots[i], fd) {
      assert !On(w1.slots[i], fd);
    }
  }

  // ---- The sweep ----

  /** What a sweep's judgement may do to one slot. */
  lemma JudgeKeeps(slot: Slot, now: int, delayed: bool, h: int)
    ensures var t := Judge(slot, now, delayed, h).0;
            && t.active == slot.active && t.fd == slot.fd
            && (t == CloseSlot(slot) ||
                (t.closing == slot.closing && t.joined == slot.joined
                 && t.userId == slot.userId && t.name == slot.name))
            && (t.closing && !slot.closing ==> slot.active)
            && KeepsIdentity(slot, t)
  {
    if slot.joined && delayed && !slot.isAlive {
      assert CloseSlot(slot.(isAlive := true, lastPing := now - h)).closing;
    }
  }

  lemma SweepSlotsGood(w: World, now: int, delayed: bool, h: int)
    requires Good(w)
    ensures var w' := w.(slots := SweepSlots(w.slots, now, delayed, h));
            Good(w') && KeepsIdentities(w.slots, w'.slots)
  {
    var w' := w.(slots := SweepSlots(w.slots, now, delayed, h));
    forall i | 0 <= i < |w.slots| ensures KeepsIdentity(w.slots[i], w'.slots[i]) && SlotOk(w'.slots[i]) {
      JudgeKeeps(w.slots[i], now, delayed, h);
    }
    SweepSlotsPresence(w, now, delayed, h);
    SweepSlotsTable(w.slots, now, delayed, h);
  }

  lemma SweepSlotsTable(slots: seq<Slot>, now: int, delayed: bool, h: int)
    requires TableOk(slots)
    ensures TableOk(SweepSlots(slots, now, delayed, h))
  {
    var t := SweepSlots(slots, now, delayed, h);
    forall i | 0 <= i < |slots|
      ensures t[i].active == slots[i].active && t[i].fd == slots[i].fd && SlotOk(t[i])
      ensures t[i].joined ==> slots[i].joined && t[i].userId == slots[i].userId
    {
      JudgeKeeps(slots[i], now, delayed, h);
    }
  }

  lemma SweepSlotsPresence(w: World, now: int, delayed: bool, h: int)
    requires Good(w)
    ensures PresenceOk(w.(slots := SweepSlots(w.slots, now, delayed, h)))
  {
    var w' := w.(slots := SweepSlots(w.slots, now, delayed, h));
    forall i | 0 <= i < |w.slots| ensures w'.slots[i] == Judge(w.slots[i], now, delayed, h).0 {
      JudgeKeeps(w.slots[i], now, delayed, h);
    }
    if i :| 0 <= i < |w.slots| && w.slots[i].active && w'.slots[i].closing {
      JudgeKeeps(w.slots[i], now, delayed, h);
      assert w'.slots[i].active && w'.slots[i].closing;
    } else {
      forall i | 0 <= i < |w.slots|
        ensures Entry(w.slots[i]) == Entry(w'.slots[i])
        ensures Member(w'.slots[i]) ==> Member(w.slots[i]) && w'.slots[i].fd == w.slots[i].fd
        ensures w.slots[i].active && w.slots[i].closing ==> w'.slots[i].active && w'.slots[i].closing
      {
        JudgeKeeps(w.slots[i], now, delayed, h);
      }
      TouchKeepsPresence(w, w');
    }
  }

  /** The world right after the sweep's locked section. */
  function Judged(w: World, now: int, h: int): World {
    var delayed := now - w.lastSweep > h;
    w.(slots := SweepSlots(w.slots, now, delayed, h), lastSweep := now,
       trace := w.trace + Observe(w.slots, |w.slots|, now, delayed, h, |w.sent|))
  }

  lemma SweepGood(w: World, now: int, h: int, net: Net)
    requires Good(w)
    ensures Good(Sweep(w, now, h, net)) && OnlyCloses(Judged(w, now, h), Sweep(w, now, h, net))
    ensures KeepsIdentities(w.slots, Sweep(w, now, h, net).slots)
  {
    var n := |w.slots|;
    var delayed := now - w.lastSweep > h;
    var w1 := Judged(w, now, h);
    SweepSlotsGood(w, now, delayed, h);
    assert PresenceOk(w1);
    var (missed, closes, pings) := Findings(w.slots, n, now, delayed, h);
    CloseAllCloses(w1, closes);
    var w2 := CloseAll(w1, closes);
    ShrinksKeepsTable(w1.slots, w2.slots);
    BroadcastToGood(w2, pings, PingText, net);
    BroadcastToCloses(w2, pings, PingText, net);
    var (w3, failed) := BroadcastTo(w2, pings, PingText, net);
    ShrinksTrans(w1.slots, w2.slots, w3.slots);
    var changed := missed || failed;
    PresenceIfGood(w3, changed, net);
    PresenceIfCloses(w3, changed, net);
    ShrinksTrans(w1.slots, w3.slots, PresenceIf(w3, changed, net).slots);
    SweepIdentities(w, w1, Sweep(w, now, h, net));
  }

  lemma SweepIdentities(w: World, w1: World, w': World)
    requires KeepsIdentities(w.slots, w1.slots) && OnlyCloses(w1, w')
    ensures KeepsIdentities(w.slots, w'.slots)
  {
    forall i | 0 <= i < |w.slots| ensures KeepsIdentity(w.slots[i], w'.slots[i]) {
      assert KeepsIdentity(w.slots[i], w1.slots[i]);
    }
  }
}
