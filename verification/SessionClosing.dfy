/** Who is closed, and who stays: for each operation, exactly when. */
module SessionClosing {
  import opened ChatTypes
  import opened SessionTable
  import opened SessionFacts
  import opened SessionSteps
  import opened SessionDelivery
  import opened SessionSends

  /** One of the new sends on a connection failed; error replies do not count. */
  ghost predicate FailedOn(w: World, w': World, fd: int, net: Net) {
    exists k :: New(w, w', k) && w'.sent[k].fd == fd && w'.sent[k].packet != ErrorText && !net(k)
  }

  /** Slots change only by closing, and an open one closes exactly if a send on its connection failed. */
  ghost predicate ClosedByFailure(w: World, w': World, net: Net) {
    && Shrinks(w.slots, w'.slots) && w.sent <= w'.sent
    && forall i :: 0 <= i < |w.slots| && w.slots[i].active && !w.slots[i].closing ==>
                     (w'.slots[i].closing <==> FailedOn(w, w', w.slots[i].fd, net))
  }

  // ---- Loops of sends ----

  lemma FailedEitherWay(a: World, b: World, c: World, fd: int, net: Net)
    requires a.sent <= b.sent <= c.sent
    ensures FailedOn(a, c, fd, net) <==> FailedOn(a, b, fd, net) || FailedOn(b, c, fd, net)
  {
    assert forall k :: New(a, b, k) ==> New(a, c, k) && c.sent[k] == b.sent[k];
    if FailedOn(a, b, fd, net) {
      var k :| New(a, b, k) && b.sent[k].fd == fd && b.sent[k].packet != ErrorText && !net(k);
      assert New(a, c, k);
    }
    if FailedOn(b, c, fd, net) {
      var k :| New(b, c, k) && c.sent[k].fd == fd && c.sent[k].packet != ErrorText && !net(k);
      assert New(a, c, k);
    }
    if FailedOn(a, c, fd, net) {
      var k :| New(a, c, k) && c.sent[k].fd == fd && c.sent[k].packet != ErrorText && !net(k);
      assert New(a, b, k) || New(b, c, k);
    }
  }

  lemma FailuresCompose(a: World, b: World, c: World, net: Net)
    requires ClosedByFailure(a, b, net) && ClosedByFailure(b, c, net)
    ensures ClosedByFailure(a, c, net)
  {
    ShrinksTrans(a.slots, b.slots, c.slots);
    forall i | 0 <= i < |a.slots| && a.slots[i].active && !a.slots[i].closing
      ensures c.slots[i].closing <==> FailedOn(a, c, a.slots[i].fd, net)
    {
      FailedEitherWay(a, b, c, a.slots[i].fd, net);
      assert b.slots[i].fd == a.slots[i].fd && (b.slots[i].closing ==> c.slots[i].closing);
    }
  }

  /** In a loop of sends a failure on a connection is one at its descriptor. */
  lemma LoopFailsOn(w: World, w': World, fds: seq<int>, packet: Packet, fd: int, net: Net)
    requires packet != ErrorText && w'.sent == w.sent + Sends(fds, packet)
    ensures FailedOn(w, w', fd, net) <==> exists k :: 0 <= k < |fds| && Fails(w, net, k) && fds[k] == fd
  {
    if k :| 0 <= k < |fds| && Fails(w, net, k) && fds[k] == fd {
      assert New(w, w', |w.sent| + k) && w'.sent[|w.sent| + k] == Sent(fd, packet);
    }
    if FailedOn(w, w', fd, net) {
      var n :| New(w, w', n) && w'.sent[n].fd == fd && !net(n);
      assert w'.sent[n] == Sends(fds, packet)[n - |w.sent|] && |w.sent| + (n - |w.sent|) == n;
      assert Fails(w, net, n - |w.sent|) && fds[n - |w.sent|] == fd;
    }
  }

  lemma LoopClosesByFailure(w: World, fds: seq<int>, packet: Packet, net: Net)
    requires packet != ErrorText
    ensures ClosedByFailure(w, BroadcastTo(w, fds, packet, net).0, net)
  {
    var w' := BroadcastTo(w, fds, packet, net).0;
    EachGetsOneSend(w, fds, packet, net);
    BroadcastToCloses(w, fds, packet, net);
    forall i | 0 <= i < |w.slots| && w.slots[i].active && !w.slots[i].closing
      ensures w'.slots[i].closing <==> FailedOn(w, w', w.slots[i].fd, net)
    {
      LoopFailsOn(w, w', fds, packet, w.slots[i].fd, net);
    }
  }

  lemma {:induction false} RoundsCloseByFailure(w: World, attempts: nat, net: Net)
    ensures ClosedByFailure(w, PresenceRounds(w, attempts, net).0, net)
    decreases attempts
  {
    if attempts > 0 {
      var packet := UserList(RosterOf(w.slots));
      var (w1, closed) := Broadcast(w, packet, net);
      LoopClosesByFailure(w, MemberFds(w.slots), packet, net);
      if closed {
        RoundsCloseByFailure(w1, attempts - 1, net);
        FailuresCompose(w, w1, PresenceRounds(w1, attempts - 1, net).0, net);
      }
    }
  }

  lemma PresenceClosesByFailure(w: World, changed: bool, net: Net)
    ensures ClosedByFailure(w, PresenceIf(w, changed, net), net)
  {
    RoundsCloseByFailure(w, |w.slots| + 1, net);
  }

  // ---- Handlers ----

  /**
   Handling a chat message, a history request or a response closes a connection exactly if a text sent to
   it could not be sent. Nobody else is touched, and the sender is not closed for a bad message.
   */
  lemma HandlerClosesByFailure(w: World, fd: int, m: Message, net: Net)
    requires m.Chat? || m.HistoryRequest? || m.HistoryResponse? || m.UnknownType?
    ensures ClosedByFailure(w, HandleIdentified(w, fd, m, net), net)
  {
    match m
    case Chat(_, _, stored, infoAlloc) =>
      ChatClosesByFailure(w, fd, stored, infoAlloc, net);
    case HistoryRequest(_, _, relayed) =>
      var (w1, closed) := Broadcast(w, RequestText, net);
      ErrorClosesNobody(w, fd, net);
      LoopClosesByFailure(w, MemberFds(w.slots), RequestText, net);
      PresenceClosesByFailure(w1, closed, net);
      FailuresCompose(w, w1, PresenceIf(w1, closed, net), net);
    case HistoryResponse(_, _, users) =>
      ErrorClosesNobody(w, fd, net);
      if users.Some? {
        ResponseClosesByFailure(w, fd, users.value, net);
      }
    case UnknownType(_, _) => ErrorClosesNobody(w, fd, net);
  }

  lemma ErrorClosesNobody(w: World, fd: int, net: Net)
    ensures ClosedByFailure(w, SendError(w, fd, net), net)
  {
  }

  lemma ChatClosesByFailure(w: World, fd: int, stored: bool, infoAlloc: bool, net: Net)
    ensures ClosedByFailure(w, HandleChat(w, fd, stored, infoAlloc, net), net)
  {
    if !stored {
      ErrorClosesNobody(w, fd, net);
    } else {
      var (w1, closed1) := Broadcast(w, ChatText, net);
      var (w2, closed2) := if infoAlloc then Broadcast(w1, InfoText, net) else (w1, false);
      LoopClosesByFailure(w, MemberFds(w.slots), ChatText, net);
      LoopClosesByFailure(w1, MemberFds(w1.slots), InfoText, net);
      if infoAlloc {
        FailuresCompose(w, w1, w2, net);
      }
      PresenceClosesByFailure(w2, closed1 || closed2, net);
      FailuresCompose(w, w2, PresenceIf(w2, closed1 || closed2, net), net);
    }
  }

  lemma ResponseClosesByFailure(w: World, fd: int, users: set<Text>, net: Net)
    ensures ClosedByFailure(w, HandleHistoryResponse(w, fd, Some(users), net), net)
  {
    var (w1, failed) := BroadcastTo(w, RecipientFds(w.slots, users), HistoryText, net);
    LoopClosesByFailure(w, RecipientFds(w.slots, users), HistoryText, net);
    if failed {
      var w2 := BroadcastPresence(w1, net);
      PresenceClosesByFailure(w1, true, net);
      FailuresCompose(w, w1, w2, net);
      ErrorClosesNobody(w2, fd, net);
      FailuresCompose(w, w2, SendError(w2, fd, net), net);
    }
  }

  // ---- Senders that are shut out ----

  /** One error on the connection, which is closed; everything else stays. */
  predicate ShutOut(w: World, w': World, fd: int) {
    && w'.sent == w.sent + [Sent(fd, ErrorText)] && w'.delivered == w.delivered
    && ClosedOn(w'.slots, fd) && |w'.slots| == |w.slots|
    && forall i :: 0 <= i < |w.slots| && !On(w.slots[i], fd) ==> w'.slots[i] == w.slots[i]
  }

  lemma ErrorAndCloseShutsOut(w: World, fd: int, net: Net)
    ensures ShutOut(w, SendErrorAndClose(w, fd, net), fd)
  {
    ClosedAfterClose(w.slots, fd);
  }

  /** The connection is joined as the user it claims to be. */
  predicate JoinedAs(slots: seq<Slot>, fd: int, user: Option<Text>) {
    exists i :: 0 <= i < |slots| && slots[i].active && !slots[i].closing && slots[i].joined && slots[i].fd == fd
                && user == Some(slots[i].userId)
  }

  /** Nobody acts before joining, or as somebody else: whatever the message, only its sender is told, and closed. */
  lemma OnlyOwnUserActs(w: World, fd: int, m: Message, now: int, net: Net)
    requires TableOk(w.slots) && !m.Untyped? && !m.Join? && !JoinedAs(w.slots, fd, m.from)
    ensures ShutOut(w, HandleMessage(w, fd, m, now, net), fd)
  {
    IdentityExactly(w.slots, fd, m.from);
    ErrorAndCloseShutsOut(w, fd, net);
  }

  /** Of an acting user at most the clock sample is taken before the message itself is handled. */
  lemma OwnUserActs(w: World, fd: int, m: Message, now: int, net: Net)
    requires TableOk(w.slots) && !m.Untyped? && !m.Join? && JoinedAs(w.slots, fd, m.from)
    ensures exists t :: SamplesDiffer(w.slots, t) && (m.sample.None? ==> t == w.slots)
                        && HandleMessage(w, fd, m, now, net) == HandleIdentified(w.(slots := t), fd, m, net)
  {
    IdentityExactly(w.slots, fd, m.from);
    SampleTouches(w.slots, fd, m.sample);
    var t := UpdateTimeSample(w.slots, fd, m.sample);
    assert HandleMessage(w, fd, m, now, net) == HandleIdentified(w.(slots := t), fd, m, net);
  }

  /** A join without a valid user, name or cursor, under another user's connection, or without ids. */
  predicate BadJoin(slots: seq<Slot>, fd: int, r: JoinRequest) {
    || r.from.None? || r.name.None? || !r.sinceOk || !r.idsLoaded
    || (MemberOn(slots, fd) && !JoinedAs(slots, fd, r.from))
  }

  lemma BadJoinIsRefused(slots: seq<Slot>, w: World, fd: int, r: JoinRequest)
    requires TableOk(slots) && w.slots == slots
    ensures BadJoin(slots, fd, r) <==> JoinRefused(w, fd, r)
  {
    IdentityExactly(slots, fd, r.from);
  }

  lemma BadJoinIsShutOut(w: World, fd: int, r: JoinRequest, now: int, net: Net)
    requires TableOk(w.slots) && BadJoin(w.slots, fd, r)
    ensures ShutOut(w, HandleJoin(w, fd, r, now, net), fd)
  {
    BadJoinIsRefused(w.slots, w, fd, r);
    ErrorAndCloseShutsOut(w, fd, net);
  }

  // ---- Joins that succeed ----

  /** A replay stops at a message that cannot be built, or whose send fails. */
  lemma {:induction false} ReplayStops(w: World, fd: int, allocs: seq<bool>, net: Net)
    ensures var (w', ok) := Replay(w, fd, allocs, net);
            && w.sent <= w'.sent
            && (ok <==> (forall k :: 0 <= k < |allocs| ==> allocs[k]) && !FailedOn(w, w', fd, net))
    decreases |allocs|
  {
    if allocs != [] && allocs[0] {
      var (w1, ok) := Send(w, fd, ReplayText, net);
      var w' := Replay(w, fd, allocs, net).0;
      assert !ok ==> New(w, w1, |w.sent|) && w1.sent[|w.sent|] == Sent(fd, ReplayText);
      if ok {
        ReplayStops(w1, fd, allocs[1..], net);
        FailedEitherWay(w, w1, w', fd, net);
        assert (forall k :: 0 <= k < |allocs| ==> allocs[k]) <==> forall k :: 0 <= k < |allocs[1..]| ==> allocs[1..][k]
        by {
          assert forall k :: 0 < k < |allocs| ==> allocs[k] == allocs[1..][k - 1];
          assert forall k :: 0 <= k < |allocs[1..]| ==> allocs[1..][k] == allocs[k + 1];
        }
      } else {
        assert w'.sent == w1.sent && FailedOn(w, w', fd, net);
      }
    }
  }

  /** One more send, which is not an error. */
  lemma SendFails(w: World, fd: int, packet: Packet, net: Net)
    requires packet != ErrorText
    ensures var (w', ok) := Send(w, fd, packet, net); ok <==> !FailedOn(w, w', fd, net)
  {
    var w' := Send(w, fd, packet, net).0;
    assert New(w, w', |w.sent|) && w'.sent[|w.sent|] == Sent(fd, packet);
  }

  /** All that a join needs built. */
  predicate AllBuilt(r: JoinRequest) {
    r.infoAlloc && forall k :: 0 <= k < |r.replayAllocs| ==> r.replayAllocs[k]
  }

  lemma SynchronizedExactly(w: World, fd: int, r: JoinRequest, net: Net)
    ensures var (w', ok) := Synchronize(w, fd, r, net);
            w.sent <= w'.sent && (ok <==> AllBuilt(r) && !FailedOn(w, w', fd, net))
  {
    var (w1, ok1) := Replay(w, fd, r.replayAllocs, net);
    var w' := Synchronize(w, fd, r, net).0;
    ReplayStops(w, fd, r.replayAllocs, net);
    if ok1 && r.infoAlloc {
      var (w2, ok2) := Send(w1, fd, InfoText, net);
      SendFails(w1, fd, InfoText, net);
      FailedEitherWay(w, w1, w2, fd, net);
      if ok2 {
        SendFails(w2, fd, UserList(RosterOf(w2.slots)), net);
        FailedEitherWay(w, w2, w', fd, net);
      }
    }
  }

  /** Replacing the user's other sessions sends errors only, none of them on the joining connection. */
  lemma {:induction false} RetireSendsErrors(w: World, fds: seq<int>, net: Net)
    ensures var w' := RetireStale(w, fds, net);
            w.sent <= w'.sent && forall k :: New(w, w', k) ==> w'.sent[k].packet == ErrorText
    decreases |fds|
  {
    if fds != [] {
      var w1 := SendErrorAndClose(w, fds[0], net);
      RetireSendsErrors(w1, fds[1..], net);
      var w' := RetireStale(w, fds, net);
      forall k | New(w, w', k) ensures w'.sent[k].packet == ErrorText {
        assert k == |w.sent| || New(w1, w', k);
        assert w'.sent[|w.sent|] == w1.sent[|w.sent|];
      }
    }
  }

  lemma BindingFailsNobody(w: World, fd: int, user: Text, name: Text, sample: Option<int>, now: int, net: Net)
    requires Good(w) && AnyOpen(w.slots, fd) && user != []
    requires !CheckIdentity(w.slots, fd, Some(user)).Mismatch?
    ensures var b := Bound(w, fd, user, name, sample, now, net);
            && w.sent <= b.sent && !FailedOn(w, b, fd, net) && TableOk(b.slots)
            && exists i :: 0 <= i < |b.slots| && Member(b.slots[i]) && b.slots[i].fd == fd
                           && b.slots[i].userId == user && b.slots[i].name == name
  {
    var target := JoinTarget(w.slots, fd);
    JoinTargetIsOwnSlot(w.slots, fd);
    UpdateIdentityJoins(w, fd, user, name, now, net);
    var slots := w.slots[target := JoinSlot(w.slots[target], fd, user, name, now)];
    RetireSendsErrors(w.(slots := CloseStale(slots, target, user)), StaleFds(slots, |slots|, target, fd, user), net);
    JoinBinds(w, fd, user, name, sample, now, net);
    var w1, b := UpdateIdentity(w, fd, user, name, now, net).0, Bound(w, fd, user, name, sample, now, net);
    SampleTouches(w1.slots, fd, sample);
    var i :| 0 <= i < |w.slots| && Open(w.slots[i], fd);
    assert BoundTo(w.slots[i], w1.slots[i], fd, user, name, now);
    assert Member(b.slots[i]) && b.slots[i].fd == fd;
  }

  /** A member stays one exactly while its slot is not closed. */
  lemma MemberStays(w: World, w': World, fd: int, net: Net)
    requires TableOk(w.slots) && ClosedByFailure(w, w', net) && MemberOn(w.slots, fd)
    ensures MemberOn(w'.slots, fd) <==> !FailedOn(w, w', fd, net)
  {
    var i :| 0 <= i < |w.slots| && Member(w.slots[i]) && w.slots[i].fd == fd;
    if MemberOn(w'.slots, fd) {
      var j :| 0 <= j < |w'.slots| && Member(w'.slots[j]) && w'.slots[j].fd == fd;
      assert w.slots[j] == w'.slots[j] && i == j;
    } else {
      assert w'.slots[i].closing;
    }
  }

  /**
   A join succeeds exactly if it is not refused, what it needs can be built, and every text on the
   connection can be sent: replay, bounds, user list, and the presence rounds that follow.
   */
  lemma JoinSucceedsExactly(w: World, fd: int, r: JoinRequest, now: int, net: Net)
    requires Good(w) && AnyOpen(w.slots, fd) && (r.from.Some? ==> r.from.value != [])
    ensures var w' := HandleJoin(w, fd, r, now, net);
            MemberOn(w'.slots, fd) <==>
              !BadJoin(w.slots, fd, r) && AllBuilt(r) && !FailedOn(w, w', fd, net)
  {
    BadJoinIsRefused(w.slots, w, fd, r);
    if BadJoin(w.slots, fd, r) {
      BadJoinIsShutOut(w, fd, r, now, net);
      ClosedIsNoMember(HandleJoin(w, fd, r, now, net).slots, fd);
    } else {
      BindingFailsNobody(w, fd, r.from.value, r.name.value, r.sample, now, net);
      UpdateIdentityJoins(w, fd, r.from.value, r.name.value, now, net);
      var b := Bound(w, fd, r.from.value, r.name.value, r.sample, now, net);
      BoundSucceedsExactly(w, b, fd, r, net);
    }
  }

  lemma BoundSucceedsExactly(w: World, b: World, fd: int, r: JoinRequest, net: Net)
    requires w.sent <= b.sent && !FailedOn(w, b, fd, net) && TableOk(b.slots) && MemberOn(b.slots, fd)
    ensures var (s, synced) := Synchronize(b, fd, r, net);
            var w' := if synced then BroadcastPresence(s, net) else CloseClient(s, fd);
            MemberOn(w'.slots, fd) <==> AllBuilt(r) && !FailedOn(w, w', fd, net)
  {
    var (s, synced) := Synchronize(b, fd, r, net);
    SynchronizedExactly(b, fd, r, net);
    FailedEitherWay(w, b, s, fd, net);
    if synced {
      var w' := BroadcastPresence(s, net);
      SynchronizeShape(b, fd, r, net);
      PresenceClosesByFailure(s, true, net);
      MemberStays(s, w', fd, net);
      FailedEitherWay(w, s, w', fd, net);
    } else {
      ClosedAfterClose(s.slots, fd);
      ClosedIsNoMember(CloseClient(s, fd).slots, fd);
    }
  }

  // ---- Frames that carry no message ----

  /** Whether a frame without a message closes its connection. */
  predicate Closing(frame: Frame, joined: bool) {
    match frame
    case Broken | Oversize | CloseFrame | WrongKind => true
    case NoBuffer => false
    case PongFrame(whole) => !whole || !joined
    case EmptyFrame(isText) => !isText || !joined
    case BadJson => !joined
    case Payload(_) => false
  }

  /**
   An open connection is closed exactly for those frames. Nothing is sent but an error on this connection,
   and user lists.
   */
  lemma FrameClosesSender(w: World, fd: int, frame: Frame, now: int, net: Net)
    requires TableOk(w.slots) && AnyOpen(w.slots, fd) && !frame.Payload?
    ensures var w' := Dispatch(w, fd, frame, now, net);
            && (ClosedOn(w'.slots, fd) <==> Closing(frame, MemberOn(w.slots, fd)))
            && w.sent <= w'.sent
            && forall k :: New(w, w', k) ==> w'.sent[k].packet.UserList? || w'.sent[k] == Sent(fd, ErrorText)
  {
    match frame
    case Payload(_) =>
    case Broken | CloseFrame => CloseAndTellCloses(w, fd, net);
    case Oversize => CloseAndTellCloses(SendError(w, fd, net), fd, net);
    case WrongKind => ClosedAfterClose(w.slots, fd);
    case _ => QuietFrameCloses(w, fd, frame, now, net);
  }

  /** Those that may leave the connection open tell nobody else. */
  lemma QuietFrameCloses(w: World, fd: int, frame: Frame, now: int, net: Net)
    requires TableOk(w.slots) && AnyOpen(w.slots, fd)
    requires frame.NoBuffer? || frame.PongFrame? || frame.EmptyFrame? || frame.BadJson?
    ensures var w' := Dispatch(w, fd, frame, now, net);
            && (ClosedOn(w'.slots, fd) <==> Closing(frame, MemberOn(w.slots, fd)))
            && (w'.sent == w.sent || w'.sent == w.sent + [Sent(fd, ErrorText)])
  {
    var w' := Dispatch(w, fd, frame, now, net);
    var i :| 0 <= i < |w.slots| && Open(w.slots[i], fd);
    IdentityExactly(w.slots, fd, None);
    FirstOpenJoinedFinds(w.slots, |w.slots|, fd);
    assert !Closing(frame, MemberOn(w.slots, fd)) ==> Open(w'.slots[i], fd);
  }

  lemma CloseAndTellCloses(w: World, fd: int, net: Net)
    ensures var w' := CloseAndTell(w, fd, net); ClosedOn(w'.slots, fd) && OnlyLists(w, w')
  {
    var w1 := CloseClient(w, fd);
    ClosedAfterClose(w.slots, fd);
    PresenceIfCloses(w1, AnyJoinedOn(w.slots, fd), net);
    ClosedStaysClosed(w1.slots, CloseAndTell(w, fd, net).slots, fd);
    PresenceSendsLists(w1, AnyJoinedOn(w.slots, fd), net);
  }

  // ---- The sweep ----

  /** The joined slots that a sweep pings: they have been heard of and it is time, or the sweep is delayed. */
  function DuePings(w: World, now: int, h: int): set<nat> {
    set i | 0 <= i < |w.slots| && w.slots[i].active && !w.slots[i].closing && w.slots[i].joined
            && if w.slots[i].isAlive then now - w.slots[i].lastPing >= h else now - w.lastSweep > h
  }

  /** A slot that a sweep closes by itself: one that did not join in time, or did not answer a ping in time. */
  predicate Overdue(slot: Slot, lastSweep: int, now: int, h: int) {
    && now - lastSweep <= h
    && if slot.joined then !slot.isAlive && now - slot.lastPing >= h else now - slot.registeredAt >= 10
  }

  lemma DueIsPinged(w: World, now: int, h: int, i: nat)
    requires i < |w.slots|
    ensures i in DuePings(w, now, h) <==> Judge(w.slots[i], now, now - w.lastSweep > h, h).1.Ping?
  {
  }

  /** A ping is due on this descriptor, for one of the first `n` slots. */
  predicate PingDueOn(w: World, n: nat, now: int, h: int, fd: int)
    requires n <= |w.slots|
  {
    exists i :: 0 <= i < n && i in DuePings(w, now, h) && w.slots[i].fd == fd
  }

  lemma {:induction false} PingFdsAre(w: World, n: nat, now: int, h: int)
    requires n <= |w.slots| && TableOk(w.slots)
    ensures var fds := Findings(w.slots, n, now, now - w.lastSweep > h, h).2;
            && Distinct(fds)
            && (forall i :: i in DuePings(w, now, h) && i < n ==> w.slots[i].fd in fds)
            && forall k :: 0 <= k < |fds| ==> PingDueOn(w, n, now, h, fds[k])
  {
    if n > 0 {
      PingFdsAre(w, n - 1, now, h);
      DueIsPinged(w, now, h, n - 1);
      var before := Findings(w.slots, n - 1, now, now - w.lastSweep > h, h).2;
      if n - 1 in DuePings(w, now, h) {
        forall k | 0 <= k < |before| ensures before[k] != w.slots[n - 1].fd {
          assert PingDueOn(w, n - 1, now, h, before[k]);
          var i :| 0 <= i < n - 1 && i in DuePings(w, now, h) && w.slots[i].fd == before[k];
          assert w.slots[i].active;
        }
      }
    }
  }

  /** A sweep pings each of these once, and nobody else. */
  lemma SweepPingsDue(w: World, now: int, h: int, net: Net)
    requires Good(w)
    ensures GoesExactlyTo(w, Sweep(w, now, h, net), PingText, DuePings(w, now, h))
  {
    var (missed, closes, pings) := Findings(w.slots, |w.slots|, now, now - w.lastSweep > h, h);
    var w2 := CloseAll(Judged(w, now, h), closes);
    var (w3, failed) := BroadcastTo(w2, pings, PingText, net);
    CloseAllCloses(Judged(w, now, h), closes);
    EachGetsOneSend(w2, pings, PingText, net);
    PresenceSendsLists(w3, missed || failed, net);
    PingFdsAre(w, |w.slots|, now, h);
    LoopGoesExactlyTo(w, Sweep(w, now, h, net), pings, PingText, DuePings(w, now, h));
  }

  /** What the sweep's locked section closes. */
  lemma JudgedCloses(slot: Slot, lastSweep: int, now: int, h: int)
    requires slot.active && !slot.closing
    ensures var t := Judge(slot, now, now - lastSweep > h, h).0;
            t.active && t.fd == slot.fd && (t.closing <==> Overdue(slot, lastSweep, now, h))
  {
  }

  /** Closing those again after the locked section closes no others. */
  lemma ClosedInSweep(w: World, now: int, h: int, i: nat)
    requires TableOk(w.slots) && i < |w.slots| && w.slots[i].active && !w.slots[i].closing
    ensures var closes := Findings(w.slots, |w.slots|, now, now - w.lastSweep > h, h).1;
            var w2 := CloseAll(Judged(w, now, h), closes);
            && |w2.slots| == |w.slots| && w2.slots[i].active && w2.slots[i].fd == w.slots[i].fd
            && (w2.slots[i].closing <==> Overdue(w.slots[i], w.lastSweep, now, h))
  {
    var delayed := now - w.lastSweep > h;
    var w1, closes := Judged(w, now, h), Findings(w.slots, |w.slots|, now, delayed, h).1;
    FindingsMeaning(w.slots, |w.slots|, now, delayed, h);
    CloseAllClosesOnly(w1, closes);
    CloseAllCloses(w1, closes);
    JudgedCloses(w.slots[i], w.lastSweep, now, h);
    if w.slots[i].fd in closes {
      var j :| 0 <= j < |w.slots| && w.slots[j].fd == w.slots[i].fd && w.slots[j].active
               && Judge(w.slots[j], now, delayed, h).0.closing;
      assert j == i;
    }
  }

  /** A sweep closes an open slot exactly if it is overdue, or a text sent on its connection failed. */
  lemma SweepClosesExactly(w: World, now: int, h: int, net: Net, i: nat)
    requires Good(w) && i < |w.slots| && w.slots[i].active && !w.slots[i].closing
    ensures var w' := Sweep(w, now, h, net);
            && |w'.slots| == |w.slots| && w'.slots[i].active && w'.slots[i].fd == w.slots[i].fd
            && (w'.slots[i].closing <==>
                  Overdue(w.slots[i], w.lastSweep, now, h) || FailedOn(w, w', w.slots[i].fd, net))
  {
    var (missed, closes, pings) := Findings(w.slots, |w.slots|, now, now - w.lastSweep > h, h);
    var w2 := CloseAll(Judged(w, now, h), closes);
    var (w3, failed) := BroadcastTo(w2, pings, PingText, net);
    var w' := Sweep(w, now, h, net);
    CloseAllCloses(Judged(w, now, h), closes);
    ClosedInSweep(w, now, h, i);
    LoopClosesByFailure(w2, pings, PingText, net);
    PresenceClosesByFailure(w3, missed || failed, net);
    FailuresCompose(w2, w3, w', net);
    SameSendsFail(w, w2, w', w.slots[i].fd, net);
  }

  lemma SameSendsFail(w: World, w2: World, w': World, fd: int, net: Net)
    requires w.sent == w2.sent
    ensures FailedOn(w, w', fd, net) <==> FailedOn(w2, w', fd, net)
  {
    assert forall k :: New(w, w', k) <==> New(w2, w', k);
  }
}
