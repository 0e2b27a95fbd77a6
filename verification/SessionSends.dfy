/** Who is sent what: each kind of text reaches the connections it is for, once, and no others. */
module SessionSends {
  import opened ChatTypes
  import opened SessionTable
  import opened SessionFacts
  import opened SessionSteps
  import opened SessionDelivery

  /** The slots of joined connections. */
  function Joined(slots: seq<Slot>): set<nat> {
    set i | 0 <= i < |slots| && slots[i].active && !slots[i].closing && slots[i].joined
  }

  /** The slots of joined connections whose user is named. */
  function Named(slots: seq<Slot>, users: set<Text>): set<nat> {
    set i | 0 <= i < |slots| && slots[i].active && slots[i].joined && slots[i].userId in users
  }

  predicate New(w: World, w': World, k: int) {
    |w.sent| <= k < |w'.sent|
  }

  /** A descriptor is that of one of the given slots. */
  predicate OneOf(slots: seq<Slot>, at: set<nat>, fd: int) {
    exists i :: 0 <= i < |slots| && i in at && slots[i].fd == fd
  }

  /** The new sends of a text go to connections of the given slots of `w`. */
  ghost predicate OnlyTo(w: World, w': World, packet: Packet, at: set<nat>) {
    forall k :: New(w, w', k) && w'.sent[k].packet == packet ==>
                  OneOf(w.slots, at, w'.sent[k].fd)
  }

  /** Exactly one new send brings a text to a connection. */
  ghost predicate OnceTo(w: World, w': World, packet: Packet, fd: int) {
    exists k :: New(w, w', k) && w'.sent[k] == Sent(fd, packet)
           && forall j :: New(w, w', j) && w'.sent[j] == Sent(fd, packet) ==> j == k
  }

  /** A text is sent once to each of the given slots, and to nobody else. */
  ghost predicate GoesExactlyTo(w: World, w': World, packet: Packet, at: set<nat>) {
    && w.sent <= w'.sent && OnlyTo(w, w', packet, at)
    && forall i :: i in at ==> i < |w.slots| && OnceTo(w, w', packet, w.slots[i].fd)
  }

  // ---- Loops of sends ----

  predicate Distinct(fds: seq<int>) {
    forall j, k :: 0 <= j < k < |fds| ==> fds[j] != fds[k]
  }

  /** The descriptors are those of the given slots. */
  predicate FdsOf(slots: seq<Slot>, fds: seq<int>, at: set<nat>) {
    && (forall i :: i in at ==> i < |slots| && slots[i].fd in fds)
    && (forall k :: 0 <= k < |fds| ==> OneOf(slots, at, fds[k]))
  }

  /** A loop that sends a text, followed by sends of other texts. */
  lemma LoopGoesExactlyTo(w: World, w': World, fds: seq<int>, packet: Packet, at: set<nat>)
    requires w.sent + Sends(fds, packet) <= w'.sent && Distinct(fds) && FdsOf(w.slots, fds, at)
    requires forall k :: |w.sent| + |fds| <= k < |w'.sent| ==> w'.sent[k].packet != packet
    ensures GoesExactlyTo(w, w', packet, at)
  {
    var n := |w.sent|;
    forall k | New(w, w', k) && w'.sent[k].packet == packet
      ensures k < n + |fds| && w'.sent[k] == Sent(fds[k - n], packet)
    {
      assert w'.sent[k] == (w.sent + Sends(fds, packet))[k];
    }
    forall i | i in at ensures OnceTo(w, w', packet, w.slots[i].fd) {
      var k :| 0 <= k < |fds| && fds[k] == w.slots[i].fd;
      assert w'.sent[n + k] == (w.sent + Sends(fds, packet))[n + k];
      assert New(w, w', n + k) && w'.sent[n + k] == Sent(w.slots[i].fd, packet);
    }
  }

  lemma {:induction false} MemberFdsAre(slots: seq<Slot>)
    requires TableOk(slots)
    ensures Distinct(MemberFds(slots)) && FdsOf(slots, MemberFds(slots), Joined(slots))
  {
    var fds := MemberFds(slots);
    MemberFdsDistinct(slots);
    forall i | i in Joined(slots) ensures slots[i].fd in fds {
      MemberFdsMeaning(slots, slots[i].fd);
      assert Member(slots[i]);
    }
    forall k | 0 <= k < |fds| ensures OneOf(slots, Joined(slots), fds[k]) {
      MemberFdsMeaning(slots, fds[k]);
      var i :| 0 <= i < |slots| && Member(slots[i]) && slots[i].fd == fds[k];
      assert i in Joined(slots);
    }
  }

  lemma {:induction false} MemberFdsDistinct(slots: seq<Slot>)
    requires TableOk(slots)
    ensures Distinct(MemberFds(slots))
  {
    if slots != [] {
      var last := |slots| - 1;
      var front := slots[..last];
      MemberFdsDistinct(front);
      forall k | 0 <= k < |MemberFds(front)| && Member(slots[last]) ensures MemberFds(front)[k] != slots[last].fd {
        MemberFdsMeaning(front, MemberFds(front)[k]);
        var i :| 0 <= i < last && Member(front[i]) && front[i].fd == MemberFds(front)[k];
        assert slots[i].active;
      }
    }
  }

  lemma {:induction false} RecipientFdsAre(slots: seq<Slot>, users: set<Text>)
    requires TableOk(slots)
    ensures Distinct(RecipientFds(slots, users)) && FdsOf(slots, RecipientFds(slots, users), Named(slots, users))
  {
    var fds := RecipientFds(slots, users);
    RecipientFdsDistinct(slots, users);
    forall i | i in Named(slots, users) ensures slots[i].fd in fds {
      RecipientFdsMeaning(slots, users, slots[i].fd);
      assert Recipient(slots[i], users);
    }
    forall k | 0 <= k < |fds| ensures OneOf(slots, Named(slots, users), fds[k]) {
      RecipientFdsMeaning(slots, users, fds[k]);
      var i :| 0 <= i < |slots| && Recipient(slots[i], users) && slots[i].fd == fds[k];
      assert i in Named(slots, users);
    }
  }

  lemma {:induction false} RecipientFdsDistinct(slots: seq<Slot>, users: set<Text>)
    requires TableOk(slots)
    ensures Distinct(RecipientFds(slots, users))
  {
    if slots != [] {
      var last := |slots| - 1;
      var front := slots[..last];
      var fds := RecipientFds(front, users);
      RecipientFdsDistinct(front, users);
      forall k | 0 <= k < |fds| && Recipient(slots[last], users) ensures fds[k] != slots[last].fd {
        RecipientFdsMeaning(front, users, fds[k]);
        var i :| 0 <= i < last && Recipient(front[i], users) && front[i].fd == fds[k];
        assert slots[i].active;
      }
    }
  }

  // ---- Presence rounds send user lists only ----

  ghost predicate OnlyLists(w: World, w': World) {
    w.sent <= w'.sent && forall k :: New(w, w', k) ==> w'.sent[k].packet.UserList?
  }

  lemma {:induction false} RoundsSendLists(w: World, attempts: nat, net: Net)
    ensures OnlyLists(w, PresenceRounds(w, attempts, net).0)
    decreases attempts
  {
    if attempts > 0 {
      var packet := UserList(RosterOf(w.slots));
      var (w1, closed) := Broadcast(w, packet, net);
      EachGetsOneSend(w, MemberFds(w.slots), packet, net);
      if closed {
        RoundsSendLists(w1, attempts - 1, net);
      }
    }
  }

  lemma PresenceSendsLists(w: World, changed: bool, net: Net)
    ensures OnlyLists(w, PresenceIf(w, changed, net))
  {
    RoundsSendLists(w, |w.slots| + 1, net);
  }

  // ---- Handlers ----

  /** A relayed history response goes once to each joined connection of a named user, and to nobody else. */
  lemma ResponseGoesToNamed(w: World, fd: int, users: set<Text>, net: Net)
    requires Good(w)
    ensures GoesExactlyTo(w, HandleHistoryResponse(w, fd, Some(users), net), HistoryText, Named(w.slots, users))
  {
    var fds := RecipientFds(w.slots, users);
    RecipientFdsAre(w.slots, users);
    EachGetsOneSend(w, fds, HistoryText, net);
    PresenceSendsLists(BroadcastTo(w, fds, HistoryText, net).0, true, net);
    LoopGoesExactlyTo(w, HandleHistoryResponse(w, fd, Some(users), net), fds, HistoryText, Named(w.slots, users));
  }

  /** A rejected one goes to nobody; its sender is told. */
  lemma RejectedResponseIsTold(w: World, fd: int, net: Net)
    ensures HandleHistoryResponse(w, fd, None, net).sent == w.sent + [Sent(fd, ErrorText)]
  {
  }

  /** A history request goes once to each joined connection, and to nobody else. */
  lemma RequestGoesToJoined(w: World, fd: int, net: Net)
    requires Good(w)
    ensures GoesExactlyTo(w, HandleHistoryRequest(w, fd, true, net), RequestText, Joined(w.slots))
  {
    MemberFdsAre(w.slots);
    var (w1, closed) := Broadcast(w, RequestText, net);
    EachGetsOneSend(w, MemberFds(w.slots), RequestText, net);
    PresenceSendsLists(w1, closed, net);
    LoopGoesExactlyTo(w, HandleHistoryRequest(w, fd, true, net), MemberFds(w.slots), RequestText, Joined(w.slots));
  }

  /** A stored chat message goes once to each joined connection, and to nobody else. */
  lemma ChatGoesToJoined(w: World, fd: int, infoAlloc: bool, net: Net)
    requires Good(w)
    ensures GoesExactlyTo(w, HandleChat(w, fd, true, infoAlloc, net), ChatText, Joined(w.slots))
  {
    MemberFdsAre(w.slots);
    var (w1, closed1) := Broadcast(w, ChatText, net);
    var (w2, closed2) := if infoAlloc then Broadcast(w1, InfoText, net) else (w1, false);
    EachGetsOneSend(w, MemberFds(w.slots), ChatText, net);
    EachGetsOneSend(w1, MemberFds(w1.slots), InfoText, net);
    PresenceSendsLists(w2, closed1 || closed2, net);
    LoopGoesExactlyTo(w, HandleChat(w, fd, true, infoAlloc, net), MemberFds(w.slots), ChatText, Joined(w.slots));
  }

  /** Whoever is still joined after a broadcast was sent its packet. */
  lemma StillJoinedWasSent(w: World, packet: Packet, net: Net, i: nat, sent: seq<Sent>)
    requires i < |w.slots| && Broadcast(w, packet, net).0.sent <= sent
    requires |Broadcast(w, packet, net).0.slots| == |w.slots| && Member(Broadcast(w, packet, net).0.slots[i])
    ensures exists k: nat :: |w.sent| <= k < |sent| && sent[k] == Sent(w.slots[i].fd, packet) && net(k)
  {
    var fds, w' := MemberFds(w.slots), Broadcast(w, packet, net).0;
    EachGetsOneSend(w, fds, packet, net);
    BroadcastToCloses(w, fds, packet, net);
    MemberFdsMeaning(w.slots, w.slots[i].fd);
    var k :| 0 <= k < |fds| && fds[k] == w.slots[i].fd;
    assert Fails(w, net, k) ==> ClosedOn(w'.slots, fds[k]);
    NthSend(w.sent, fds, packet, sent, |w.sent| + k);
  }

  /** And whoever is still joined afterwards was sent the new history bounds after it. */
  lemma ChatBringsBounds(w: World, fd: int, net: Net, i: nat)
    requires Good(w) && i < |w.slots|
    requires |HandleChat(w, fd, true, true, net).slots| == |w.slots|
    requires Member(HandleChat(w, fd, true, true, net).slots[i])
    ensures var w' := HandleChat(w, fd, true, true, net);
            exists k: nat :: New(w, w', k) && w'.sent[k] == Sent(w'.slots[i].fd, InfoText) && net(k)
  {
    var (w1, closed1) := Broadcast(w, ChatText, net);
    var (w2, closed2) := Broadcast(w1, InfoText, net);
    var w' := PresenceIf(w2, closed1 || closed2, net);
    assert w' == HandleChat(w, fd, true, true, net);
    BroadcastToCloses(w, MemberFds(w.slots), ChatText, net);
    BroadcastToCloses(w1, MemberFds(w1.slots), InfoText, net);
    PresenceIfCloses(w2, closed1 || closed2, net);
    assert w2.slots[i] == w'.slots[i] && w1.slots[i] == w2.slots[i];
    StillJoinedWasSent(w1, InfoText, net, i, w'.sent);
  }

  /** A request for the user list is answered on the same connection. */
  lemma ListIsAnswered(w: World, fd: int, m: Message, net: Net)
    requires Good(w) && m.GetOnlineUsers?
    ensures var w' := HandleIdentified(w, fd, m, net);
            && |w'.sent| == |w.sent| + 1 && w.sent <= w'.sent && w'.slots == w.slots
            && w'.sent[|w.sent|].fd == fd && w'.sent[|w.sent|].packet.UserList?
            && ListsJoined(w'.sent[|w.sent|].packet.users, w.slots)
  {
    var at := RosterLists(w.slots);
  }

  // ---- Joins ----

  /** The other slots of the same user, before a join. */
  function Replaced(slots: seq<Slot>, fd: int, user: Text): set<nat> {
    set i | 0 <= i < |slots| && slots[i].active && slots[i].userId == user && slots[i].fd != fd
  }

  lemma {:induction false} RetireTells(w: World, fds: seq<int>, net: Net)
    ensures RetireStale(w, fds, net).sent == w.sent + Sends(fds, ErrorText)
    decreases |fds|
  {
    if fds != [] {
      RetireTells(SendErrorAndClose(w, fds[0], net), fds[1..], net);
      assert Sends(fds, ErrorText) == [Sent(fds[0], ErrorText)] + Sends(fds[1..], ErrorText);
    }
  }

  lemma {:induction false} StaleFdsAre(slots: seq<Slot>, n: nat, target: int, fd: int, user: Text)
    requires n <= |slots|
    requires forall i, j :: 0 <= i < j < |slots| && slots[i].active && slots[j].active ==> slots[i].fd != slots[j].fd
    ensures Distinct(StaleFds(slots, n, target, fd, user))
    ensures forall i :: 0 <= i < n && i != target && Stale(slots[i], user) && slots[i].fd >= 0 && slots[i].fd != fd ==>
                          slots[i].fd in StaleFds(slots, n, target, fd, user)
  {
    StaleFdsMeaning(slots, n, target, fd, user);
    if n > 0 {
      StaleFdsAre(slots, n - 1, target, fd, user);
      var fds := StaleFds(slots, n - 1, target, fd, user);
      StaleFdsMeaning(slots, n - 1, target, fd, user);
      forall k | 0 <= k < |fds| && Stale(slots[n - 1], user) ensures fds[k] != slots[n - 1].fd {
        assert fds[k] in fds;
        var i :| 0 <= i < n - 1 && i != target && Stale(slots[i], user) && slots[i].fd == fds[k];
      }
    }
  }

  /** A join tells each other session of the user, once, that it is replaced, and nobody else. */
  lemma JoinTellsReplaced(w: World, fd: int, user: Text, name: Text, now: int, net: Net)
    requires Good(w) && AnyOpen(w.slots, fd) && user != []
    ensures var w' := UpdateIdentity(w, fd, user, name, now, net).0;
            GoesExactlyTo(w, w', ErrorText, Replaced(w.slots, fd, user))
  {
    var target := JoinTarget(w.slots, fd);
    JoinTargetIsOwnSlot(w.slots, fd);
    var s1 := w.slots[target := JoinSlot(w.slots[target], fd, user, name, now)];
    var stale := StaleFds(s1, |s1|, target, fd, user);
    StaleFdsAre(s1, |s1|, target, fd, user);
    StaleFdsMeaning(s1, |s1|, target, fd, user);
    RetireTells(w.(slots := CloseStale(s1, target, user)), stale, net);
    forall i | i in Replaced(w.slots, fd, user) ensures w.slots[i].fd in stale {
      assert s1[i] == w.slots[i] && Stale(s1[i], user);
    }
    forall k | 0 <= k < |stale|
      ensures OneOf(w.slots, Replaced(w.slots, fd, user), stale[k])
    {
      assert stale[k] in stale;
      var i :| 0 <= i < |s1| && i != target && Stale(s1[i], user) && s1[i].fd == stale[k];
      assert i in Replaced(w.slots, fd, user);
    }
    LoopGoesExactlyTo(w, UpdateIdentity(w, fd, user, name, now, net).0, stale, ErrorText, Replaced(w.slots, fd, user));
  }

  lemma {:induction false} ReplaySends(w: World, fd: int, allocs: seq<bool>, net: Net)
    requires Replay(w, fd, allocs, net).1
    ensures var w' := Replay(w, fd, allocs, net).0;
            && |w'.sent| == |w.sent| + |allocs| && w.sent <= w'.sent
            && forall k: nat :: New(w, w', k) ==> w'.sent[k] == Sent(fd, ReplayText) && net(k)
    decreases |allocs|
  {
    if allocs != [] {
      ReplaySends(Send(w, fd, ReplayText, net).0, fd, allocs[1..], net);
    }
  }

  /** From the `n`-th on: `count` messages, the history bounds and the list of joined users, all delivered to `fd`. */
  ghost predicate Synchronized(sent: seq<Sent>, n: nat, count: nat, fd: int, slots: seq<Slot>, net: Net) {
    var m := n + count;
    && m + 2 <= |sent|
    && (forall k :: n <= k < m ==> sent[k] == Sent(fd, ReplayText))
    && sent[m] == Sent(fd, InfoText)
    && sent[m + 1].fd == fd && sent[m + 1].packet.UserList? && ListsJoined(sent[m + 1].packet.users, slots)
    && (forall k :: n <= k < m + 2 ==> net(k))
  }

  lemma SynchronizeShape(w: World, fd: int, r: JoinRequest, net: Net)
    requires Synchronize(w, fd, r, net).1
    ensures var (w1, ok) := Replay(w, fd, r.replayAllocs, net);
            && ok && w1.slots == w.slots && net(|w1.sent|) && net(|w1.sent| + 1)
            && Synchronize(w, fd, r, net).0.sent ==
               w1.sent + [Sent(fd, InfoText)] + [Sent(fd, UserList(RosterOf(w.slots)))]
  {
    ReplayCloses(w, fd, r.replayAllocs, net);
  }

  lemma SynchronizeSends(w: World, fd: int, r: JoinRequest, net: Net)
    requires Synchronize(w, fd, r, net).1 && forall i :: 0 <= i < |w.slots| ==> SlotOk(w.slots[i])
    ensures var w' := Synchronize(w, fd, r, net).0;
            w.sent <= w'.sent && Synchronized(w'.sent, |w.sent|, |r.replayAllocs|, fd, w.slots, net)
  {
    var w1 := Replay(w, fd, r.replayAllocs, net).0;
    SynchronizeShape(w, fd, r, net);
    ReplayThenInfoAndList(w, w1, fd, r.replayAllocs, net);
  }

  lemma ReplayThenInfoAndList(w: World, w1: World, fd: int, allocs: seq<bool>, net: Net)
    requires forall i :: 0 <= i < |w.slots| ==> SlotOk(w.slots[i])
    requires Replay(w, fd, allocs, net) == (w1, true) && net(|w1.sent|) && net(|w1.sent| + 1)
    ensures var sent := w1.sent + [Sent(fd, InfoText)] + [Sent(fd, UserList(RosterOf(w.slots)))];
            w.sent <= sent && Synchronized(sent, |w.sent|, |allocs|, fd, w.slots, net)
  {
    ReplaySends(w, fd, allocs, net);
    var at := RosterLists(w.slots);
    FollowedByInfoAndList(w1.sent, |w.sent|, |allocs|, fd, RosterOf(w.slots), w.slots, net);
  }

  lemma FollowedByInfoAndList(sent: seq<Sent>, n: nat, count: nat, fd: int, list: Roster, slots: seq<Slot>, net: Net)
    requires |sent| == n + count && ListsJoined(list, slots) && net(n + count) && net(n + count + 1)
    requires forall k :: n <= k < n + count ==> sent[k] == Sent(fd, ReplayText) && net(k)
    ensures Synchronized(sent + [Sent(fd, InfoText)] + [Sent(fd, UserList(list))], n, count, fd, slots, net)
  {
  }

  lemma JoinedIsSynced(w: World, fd: int, r: JoinRequest, now: int, net: Net)
    requires !JoinRefused(w, fd, r) && UpdateIdentity(w, fd, r.from.value, r.name.value, now, net).1
    requires MemberOn(HandleJoin(w, fd, r, now, net).slots, fd)
    ensures var (w1, synced) := Synchronize(Bound(w, fd, r.from.value, r.name.value, r.sample, now, net), fd, r, net);
            synced && HandleJoin(w, fd, r, now, net) == BroadcastPresence(w1, net)
  {
    var (w1, synced) := Synchronize(Bound(w, fd, r.from.value, r.name.value, r.sample, now, net), fd, r, net);
    if !synced {
      ClosedAfterClose(w1.slots, fd);
      ClosedIsNoMember(MarkClosing(w1.slots, fd), fd);
    }
  }

  /** A connection that is joined after its join was sent the replay, the bounds and the user list; everyone is told. */
  lemma JoinedIsSynchronized(w: World, fd: int, r: JoinRequest, now: int, net: Net)
    requires Good(w) && AnyOpen(w.slots, fd) && !JoinRefused(w, fd, r) && r.from.value != []
    requires MemberOn(HandleJoin(w, fd, r, now, net).slots, fd)
    ensures var bound, w' := Bound(w, fd, r.from.value, r.name.value, r.sample, now, net),
                             HandleJoin(w, fd, r, now, net);
            && bound.sent <= w'.sent && AllCurrent(w')
            && Synchronized(w'.sent, |bound.sent|, |r.replayAllocs|, fd, bound.slots, net)
  {
    var bound := Bound(w, fd, r.from.value, r.name.value, r.sample, now, net);
    JoinBinds(w, fd, r.from.value, r.name.value, r.sample, now, net);
    JoinedIsSynced(w, fd, r, now, net);
    SynchronizeSends(bound, fd, r, net);
    var w1 := Synchronize(bound, fd, r, net).0;
    PresenceBroadcastConverges(w1, net);
  }

  // ---- Who is told that someone is gone ----

  /** Closing a joined connection on its own frame tells everyone at once. */
  lemma CloseIsTold(w: World, fd: int, net: Net)
    requires AnyJoinedOn(w.slots, fd)
    ensures AllCurrent(CloseAndTell(w, fd, net))
  {
    PresenceBroadcastConverges(CloseClient(w, fd), net);
  }

  /** So does the close callback of any connection that had a slot. */
  lemma CallbackIsTold(w: World, fd: int, net: Net)
    requires AnyOn(w.slots, fd)
    ensures AllCurrent(SessionClosed(w, fd, net))
  {
    PresenceBroadcastConverges(w.(slots := Remove(w.slots, fd), delivered := w.delivered - {fd}), net);
  }

  /** A loop of sends that closes nobody leaves the table alone. */
  lemma CleanLoopKeepsSlots(w: World, fds: seq<int>, packet: Packet, net: Net)
    requires !BroadcastTo(w, fds, packet, net).1
    ensures BroadcastTo(w, fds, packet, net).0.slots == w.slots
  {
    EachGetsOneSend(w, fds, packet, net);
  }

  /** If a chat message, a history request or a response closes anyone, everyone left is told. */
  lemma HandlerTells(w: World, fd: int, m: Message, net: Net)
    requires m.Chat? || m.HistoryRequest? || m.HistoryResponse?
    requires HandleIdentified(w, fd, m, net).slots != w.slots
    ensures AllCurrent(HandleIdentified(w, fd, m, net))
  {
    match m
    case Chat(_, _, stored, infoAlloc) => ChatTells(w, fd, infoAlloc, net);
    case HistoryRequest(_, _, _) =>
      var (w1, closed) := Broadcast(w, RequestText, net);
      if closed {
        PresenceBroadcastConverges(w1, net);
      } else {
        CleanLoopKeepsSlots(w, MemberFds(w.slots), RequestText, net);
      }
    case HistoryResponse(_, _, users) => ResponseTells(w, fd, users.value, net);
  }

  lemma ChatTells(w: World, fd: int, infoAlloc: bool, net: Net)
    requires HandleChat(w, fd, true, infoAlloc, net).slots != w.slots
    ensures AllCurrent(HandleChat(w, fd, true, infoAlloc, net))
  {
    var (w1, closed1) := Broadcast(w, ChatText, net);
    var (w2, closed2) := if infoAlloc then Broadcast(w1, InfoText, net) else (w1, false);
    if closed1 || closed2 {
      PresenceBroadcastConverges(w2, net);
    } else {
      CleanLoopKeepsSlots(w, MemberFds(w.slots), ChatText, net);
      if infoAlloc {
        CleanLoopKeepsSlots(w1, MemberFds(w1.slots), InfoText, net);
      }
    }
  }

  lemma ResponseTells(w: World, fd: int, users: set<Text>, net: Net)
    requires HandleHistoryResponse(w, fd, Some(users), net).slots != w.slots
    ensures AllCurrent(HandleHistoryResponse(w, fd, Some(users), net))
  {
    var (w1, failed) := BroadcastTo(w, RecipientFds(w.slots, users), HistoryText, net);
    if failed {
      PresenceBroadcastConverges(w1, net);
    } else {
      CleanLoopKeepsSlots(w, RecipientFds(w.slots, users), HistoryText, net);
    }
  }

  lemma {:induction false} FindingsMeaning(slots: seq<Slot>, n: nat, now: int, delayed: bool, h: int)
    requires n <= |slots|
    ensures var (missed, closes, _) := Findings(slots, n, now, delayed, h);
            && (!missed ==> forall i :: 0 <= i < n ==> !Judge(slots[i], now, delayed, h).1.CloseMissed?)
            && forall fd :: fd in closes ==> exists i :: 0 <= i < n && slots[i].fd == fd && slots[i].active
                                                    && Judge(slots[i], now, delayed, h).0.closing
  {
    if n > 0 {
      FindingsMeaning(slots, n - 1, now, delayed, h);
    }
  }

  lemma {:induction false} CloseAllClosesOnly(w: World, fds: seq<int>)
    ensures |CloseAll(w, fds).slots| == |w.slots|
    ensures forall i :: 0 <= i < |w.slots| && w.slots[i].fd !in fds ==> CloseAll(w, fds).slots[i] == w.slots[i]
    decreases |fds|
  {
    if fds != [] {
      CloseAllClosesOnly(CloseClient(w, fds[0]), fds[1..]);
    }
  }

  /** A joined slot is left alone by a sweep that misses nobody, up to its pings. */
  lemma UnmissedStays(w: World, now: int, h: int, i: nat)
    requires Good(w) && i < |w.slots| && Member(w.slots[i])
    requires !Findings(w.slots, |w.slots|, now, now - w.lastSweep > h, h).0
    ensures var w1 := Judged(w, now, h);
            var closes := Findings(w.slots, |w.slots|, now, now - w.lastSweep > h, h).1;
            |CloseAll(w1, closes).slots| == |w.slots| && Member(CloseAll(w1, closes).slots[i])
  {
    var delayed := now - w.lastSweep > h;
    var w1, closes := Judged(w, now, h), Findings(w.slots, |w.slots|, now, delayed, h).1;
    FindingsMeaning(w.slots, |w.slots|, now, delayed, h);
    CloseAllClosesOnly(w1, closes);
    assert Member(w1.slots[i]) && w1.slots[i].fd == w.slots[i].fd;
    forall fd | fd in closes ensures fd != w.slots[i].fd {
      var j :| 0 <= j < |w.slots| && w.slots[j].fd == fd && w.slots[j].active
               && Judge(w.slots[j], now, delayed, h).0.closing;
      assert j != i;
    }
  }

  /** If a sweep closes a joined connection, everyone left is told. */
  lemma SweepTells(w: World, now: int, h: int, net: Net, i: nat)
    requires Good(w) && i < |w.slots| && |Sweep(w, now, h, net).slots| == |w.slots|
    requires Member(w.slots[i]) && !Member(Sweep(w, now, h, net).slots[i])
    ensures AllCurrent(Sweep(w, now, h, net))
  {
    var (missed, closes, pings) := Findings(w.slots, |w.slots|, now, now - w.lastSweep > h, h);
    var w2 := CloseAll(Judged(w, now, h), closes);
    var (w3, failed) := BroadcastTo(w2, pings, PingText, net);
    if missed || failed {
      PresenceBroadcastConverges(w3, net);
    } else {
      UnmissedStays(w, now, h, i);
      CleanLoopKeepsSlots(w2, pings, PingText, net);
    }
  }
}
