/** What single operations on the client table keep: slots are only ever closed, and broadcasts converge. */
module SessionFacts {
  import opened ChatTypes
  import opened SessionTable

  predicate SlotOk(s: Slot) {
    && (s.joined ==> s.active && !s.closing)
    && (s.active ==> s.fd >= 0 && (s.joined <==> s.userId != []))
    && (s.closing ==> s.active)
  }

  /** Each connection has at most one slot, each user at most one joined slot, joined iff a user id is set. */
  predicate TableOk(slots: seq<Slot>) {
    && (forall i :: 0 <= i < |slots| ==> SlotOk(slots[i]))
    && (forall i, j :: 0 <= i < j < |slots| && slots[i].active && slots[j].active ==> slots[i].fd != slots[j].fd)
    && (forall i, j :: 0 <= i < j < |slots| && slots[i].joined && slots[j].joined ==>
                         slots[i].userId != slots[j].userId)
  }

  /** Every slot is as before or was an active slot that has been closed. */
  predicate Shrinks(s: seq<Slot>, t: seq<Slot>) {
    |s| == |t| && forall i :: 0 <= i < |s| ==> t[i] == s[i] || (s[i].active && t[i] == CloseSlot(s[i]))
  }

  predicate OnlyCloses(w: World, w': World) {
    Shrinks(w.slots, w'.slots) && w'.lastSweep == w.lastSweep && w'.trace == w.trace && w.sent <= w'.sent
  }

  predicate AnyClosing(slots: seq<Slot>) {
    exists i :: 0 <= i < |slots| && slots[i].active && slots[i].closing
  }

  /** Every joined connection was last told exactly the current user list. */
  predicate AllCurrent(w: World) {
    forall i :: 0 <= i < |w.slots| && Member(w.slots[i]) ==>
                  w.slots[i].fd in w.delivered && w.delivered[w.slots[i].fd] == RosterOf(w.slots)
  }

  /** Some slot is still closing, or every joined connection knows the current user list. */
  predicate PresenceOk(w: World) {
    AnyClosing(w.slots) || AllCurrent(w)
  }

  // ---- Closing ----

  lemma ShrinksTrans(a: seq<Slot>, b: seq<Slot>, c: seq<Slot>)
    requires Shrinks(a, b) && Shrinks(b, c)
    ensures Shrinks(a, c)
  {
    forall i | 0 <= i < |a| ensures c[i] == a[i] || (a[i].active && c[i] == CloseSlot(a[i])) {
      assert CloseSlot(CloseSlot(a[i])) == CloseSlot(a[i]);
    }
  }

  lemma ShrinksKeepsTable(s: seq<Slot>, t: seq<Slot>)
    requires TableOk(s) && Shrinks(s, t)
    ensures TableOk(t)
    ensures t == s || AnyClosing(t)
    ensures AnyClosing(s) ==> AnyClosing(t)
  {
    if t != s {
      var i :| 0 <= i < |s| && t[i] != s[i];
      assert t[i].active && t[i].closing;
    }
    if AnyClosing(s) {
      var i :| 0 <= i < |s| && s[i].active && s[i].closing;
      assert t[i].active && t[i].closing;
    }
  }

  lemma {:induction false} BroadcastToCloses(w: World, fds: seq<int>, packet: Packet, net: Net)
    ensures OnlyCloses(w, BroadcastTo(w, fds, packet, net).0)
    decreases |fds|
  {
    if fds != [] {
      var (w1, ok) := Send(w, fds[0], packet, net);
      var next := if ok then w1 else CloseClient(w1, fds[0]);
      BroadcastToCloses(next, fds[1..], packet, net);
      ShrinksTrans(w.slots, next.slots, BroadcastTo(w, fds, packet, net).0.slots);
    }
  }

  lemma {:induction false} PresenceRoundsCloses(w: World, attempts: nat, net: Net)
    ensures OnlyCloses(w, PresenceRounds(w, attempts, net).0)
    decreases attempts
  {
    if attempts > 0 {
      var packet := UserList(RosterOf(w.slots));
      BroadcastToCloses(w, MemberFds(w.slots), packet, net);
      var (w1, closed) := Broadcast(w, packet, net);
      if closed {
        PresenceRoundsCloses(w1, attempts - 1, net);
        ShrinksTrans(w.slots, w1.slots, PresenceRounds(w1, attempts - 1, net).0.slots);
      }
    }
  }

  lemma PresenceIfCloses(w: World, changed: bool, net: Net)
    ensures OnlyCloses(w, PresenceIf(w, changed, net))
  {
    PresenceRoundsCloses(w, |w.slots| + 1, net);
  }

  lemma {:induction false} RetireStaleCloses(w: World, fds: seq<int>, net: Net)
    ensures OnlyCloses(w, RetireStale(w, fds, net))
    ensures forall i :: 0 <= i < |w.slots| && w.slots[i].fd !in fds ==> RetireStale(w, fds, net).slots[i] == w.slots[i]
    decreases |fds|
  {
    if fds != [] {
      var next := SendErrorAndClose(w, fds[0], net);
      RetireStaleCloses(next, fds[1..], net);
      ShrinksTrans(w.slots, next.slots, RetireStale(w, fds, net).slots);
    }
  }

  lemma {:induction false} ReplayCloses(w: World, fd: int, allocs: seq<bool>, net: Net)
    ensures OnlyCloses(w, Replay(w, fd, allocs, net).0)
    ensures Replay(w, fd, allocs, net).1 ==> Replay(w, fd, allocs, net).0.slots == w.slots
    decreases |allocs|
  {
    if allocs != [] && allocs[0] {
      ReplayCloses(Send(w, fd, ReplayText, net).0, fd, allocs[1..], net);
    }
  }

  lemma SynchronizeCloses(w: World, fd: int, r: JoinRequest, net: Net)
    ensures OnlyCloses(w, Synchronize(w, fd, r, net).0)
  {
    ReplayCloses(w, fd, r.replayAllocs, net);
  }

  lemma {:induction false} CloseAllCloses(w: World, fds: seq<int>)
    ensures OnlyCloses(w, CloseAll(w, fds)) && CloseAll(w, fds).delivered == w.delivered
    ensures CloseAll(w, fds).sent == w.sent
    decreases |fds|
  {
    if fds != [] {
      var next := CloseClient(w, fds[0]);
      CloseAllCloses(next, fds[1..]);
      ShrinksTrans(w.slots, next.slots, CloseAll(w, fds).slots);
    }
  }

  // ---- Convergence of presence broadcasts ----

  predicate MemberOn(slots: seq<Slot>, fd: int) {
    exists i :: 0 <= i < |slots| && Member(slots[i]) && slots[i].fd == fd
  }

  lemma {:induction false} MemberFdsMeaning(slots: seq<Slot>, fd: int)
    ensures fd in MemberFds(slots) <==> MemberOn(slots, fd)
    ensures |MemberFds(slots)| <= |slots|
  {
    if slots != [] {
      var last := |slots| - 1;
      MemberFdsMeaning(slots[..last], fd);
      if fd in MemberFds(slots[..last]) {
        var i :| 0 <= i < last && Member(slots[..last][i]) && slots[..last][i].fd == fd;
        assert Member(slots[i]);
      }
      if i :| 0 <= i < |slots| && Member(slots[i]) && slots[i].fd == fd {
        if i < last {
          assert Member(slots[..last][i]) && slots[..last][i].fd == fd;
        }
      }
    }
  }

  /** Closing a member lowers the number of members. */
  lemma {:induction false} FewerMembers(s: seq<Slot>, t: seq<Slot>)
    requires Shrinks(s, t)
    ensures |MemberFds(t)| <= |MemberFds(s)|
    ensures (exists i :: 0 <= i < |s| && Member(s[i]) && !Member(t[i])) ==> |MemberFds(t)| < |MemberFds(s)|
  {
    if s != [] {
      var last := |s| - 1;
      FewerMembers(s[..last], t[..last]);
      if i :| 0 <= i < |s| && Member(s[i]) && !Member(t[i]) {
        if i < last {
          assert Member(s[..last][i]) && !Member(t[..last][i]);
        }
      }
    }
  }

  /** A broadcast with a failure closes a member; one without leaves the table alone and reaches everyone. */
  lemma {:induction false} BroadcastToOutcome(w: World, fds: seq<int>, packet: Packet, net: Net)
    requires forall k :: 0 <= k < |fds| ==> MemberOn(w.slots, fds[k])
    ensures var (w', closed) := BroadcastTo(w, fds, packet, net);
            && |w'.slots| == |w.slots|
            && (closed ==> exists i :: 0 <= i < |w.slots| && Member(w.slots[i]) && !Member(w'.slots[i]))
            && (!closed ==> w'.slots == w.slots)
            && (!closed && packet.UserList? ==>
                  forall fd :: fd in fds || (fd in w.delivered && w.delivered[fd] == packet.users) ==>
                                 fd in w'.delivered && w'.delivered[fd] == packet.users)
    decreases |fds|
  {
    if fds != [] {
      var (w1, ok) := Send(w, fds[0], packet, net);
      if ok {
        BroadcastToOutcome(w1, fds[1..], packet, net);
      } else {
        var next := CloseClient(w1, fds[0]);
        BroadcastToCloses(next, fds[1..], packet, net);
        assert MemberOn(w.slots, fds[0]);
        var w' := BroadcastTo(w, fds, packet, net).0;
        var i :| 0 <= i < |w.slots| && Member(w.slots[i]) && w.slots[i].fd == fds[0];
        assert next.slots[i] == CloseSlot(w.slots[i]);
        assert w'.slots[i] == next.slots[i] || w'.slots[i] == CloseSlot(next.slots[i]);
        assert Member(w.slots[i]) && !Member(w'.slots[i]);
      }
    }
  }

  /** Every failing presence round strictly lowers the number of joined slots. */
  lemma FailingRoundShrinks(w: World, net: Net)
    ensures var (w', closed) := Broadcast(w, UserList(RosterOf(w.slots)), net);
            && |w'.slots| == |w.slots|
            && (closed ==> |MemberFds(w'.slots)| < |MemberFds(w.slots)|)
            && (!closed ==> w'.slots == w.slots && AllCurrent(w'))
  {
    var packet := UserList(RosterOf(w.slots));
    var fds := MemberFds(w.slots);
    forall k | 0 <= k < |fds| ensures MemberOn(w.slots, fds[k]) {
      MemberFdsMeaning(w.slots, fds[k]);
    }
    BroadcastToOutcome(w, fds, packet, net);
    BroadcastToCloses(w, fds, packet, net);
    var (w', closed) := Broadcast(w, packet, net);
    FewerMembers(w.slots, w'.slots);
    if !closed {
      forall i | 0 <= i < |w'.slots| && Member(w'.slots[i])
        ensures w'.slots[i].fd in w'.delivered && w'.delivered[w'.slots[i].fd] == RosterOf(w'.slots)
      {
        MemberFdsMeaning(w.slots, w.slots[i].fd);
      }
    }
  }

  /**
   With more attempts than joined slots the rounds always end in one without a failure, and then
   every joined connection has the current list.
   */
  lemma {:induction false} RoundsConverge(w: World, attempts: nat, net: Net)
    requires attempts > |MemberFds(w.slots)|
    ensures PresenceRounds(w, attempts, net).1
    ensures AllCurrent(PresenceRounds(w, attempts, net).0)
    decreases attempts
  {
    FailingRoundShrinks(w, net);
    var (w1, closed) := Broadcast(w, UserList(RosterOf(w.slots)), net);
    if closed {
      RoundsConverge(w1, attempts - 1, net);
    }
  }

  /** The broadcast's own bound, one more than the number of slots, is enough for every failure pattern. */
  lemma PresenceBroadcastConverges(w: World, net: Net)
    ensures PresenceRounds(w, |w.slots| + 1, net).1
    ensures AllCurrent(BroadcastPresence(w, net)) && OnlyCloses(w, BroadcastPresence(w, net))
  {
    MemberFdsMeaning(w.slots, 0);
    RoundsConverge(w, |w.slots| + 1, net);
    PresenceRoundsCloses(w, |w.slots| + 1, net);
  }

  // ---- Presence under single operations ----

  lemma CloseKeepsPresence(w: World, fd: int)
    requires TableOk(w.slots) && PresenceOk(w)
    ensures TableOk(CloseClient(w, fd).slots) && PresenceOk(CloseClient(w, fd))
  {
    ShrinksKeepsTable(w.slots, CloseClient(w, fd).slots);
  }

  lemma CloseMakesClosing(w: World, fd: int)
    requires TableOk(w.slots) && AnyOn(w.slots, fd)
    ensures TableOk(CloseClient(w, fd).slots) && AnyClosing(CloseClient(w, fd).slots)
  {
    var after := CloseClient(w, fd);
    ShrinksKeepsTable(w.slots, after.slots);
    var i :| 0 <= i < |w.slots| && On(w.slots[i], fd);
    assert after.slots[i] == CloseSlot(w.slots[i]);
    assert after.slots[i].active && after.slots[i].closing;
  }

  lemma SendKeepsPresence(w: World, fd: int, packet: Packet, net: Net)
    requires PresenceOk(w)
    requires packet.UserList? ==> AnyClosing(w.slots) || packet.users == RosterOf(w.slots)
    ensures PresenceOk(Send(w, fd, packet, net).0)
  {
  }

  lemma {:induction false} BroadcastKeepsPresence(w: World, fds: seq<int>, packet: Packet, net: Net)
    requires TableOk(w.slots) && PresenceOk(w)
    requires packet.UserList? ==> AnyClosing(w.slots) || packet.users == RosterOf(w.slots)
    ensures var w' := BroadcastTo(w, fds, packet, net).0; TableOk(w'.slots) && PresenceOk(w')
    decreases |fds|
  {
    if fds != [] {
      var (w1, ok) := Send(w, fds[0], packet, net);
      SendKeepsPresence(w, fds[0], packet, net);
      if ok {
        BroadcastKeepsPresence(w1, fds[1..], packet, net);
      } else {
        CloseKeepsPresence(w1, fds[0]);
        ShrinksKeepsTable(w.slots, CloseClient(w1, fds[0]).slots);
        BroadcastKeepsPresence(CloseClient(w1, fds[0]), fds[1..], packet, net);
      }
    }
  }

  lemma PresenceAfterBroadcast(w: World, net: Net)
    requires TableOk(w.slots)
    ensures TableOk(BroadcastPresence(w, net).slots) && PresenceOk(BroadcastPresence(w, net))
  {
    PresenceBroadcastConverges(w, net);
    ShrinksKeepsTable(w.slots, BroadcastPresence(w, net).slots);
  }

  /** What a slot contributes to the user list. */
  function Entry(slot: Slot): Roster {
    if Member(slot) && slot.userId != [] then [(slot.userId, if slot.name != [] then slot.name else NEW_USER)] else []
  }

  lemma {:induction false} SameEntriesSameRoster(s: seq<Slot>, t: seq<Slot>)
    requires |s| == |t| && forall i :: 0 <= i < |s| ==> Entry(s[i]) == Entry(t[i])
    ensures RosterOf(s) == RosterOf(t)
  {
    if s != [] {
      SameEntriesSameRoster(s[..|s| - 1], t[..|t| - 1]);
    }
  }

  /** Changes that leave membership, identities and closing slots alone. */
  lemma TouchKeepsPresence(w: World, w': World)
    requires PresenceOk(w) && |w.slots| == |w'.slots| && w'.delivered == w.delivered
    requires forall i :: 0 <= i < |w.slots| ==>
                           && Entry(w.slots[i]) == Entry(w'.slots[i])
                           && (Member(w'.slots[i]) ==> Member(w.slots[i]) && w'.slots[i].fd == w.slots[i].fd)
                           && (w.slots[i].active && w.slots[i].closing ==> w'.slots[i].active && w'.slots[i].closing)
    ensures PresenceOk(w')
  {
    SameEntriesSameRoster(w.slots, w'.slots);
    if AnyClosing(w.slots) {
      var i :| 0 <= i < |w.slots| && w.slots[i].active && w.slots[i].closing;
      assert w'.slots[i].active && w'.slots[i].closing;
    }
  }

  // ---- What the user list says ----

  /** A user list entry for a joined slot: its user id, and its name or the default one. */
  predicate Shows(entry: (Text, Text), slot: Slot) {
    && slot.active && !slot.closing && slot.joined
    && entry.0 == slot.userId
    && (if slot.name == [] then entry.1 == NEW_USER else entry.1 == slot.name)
  }

  /** The list has one entry for each joined slot, in slot order; `at` says where the entries come from. */
  predicate ListsAt(list: Roster, slots: seq<Slot>, at: seq<nat>) {
    && |at| == |list|
    && (forall k :: 0 <= k < |at| ==> at[k] < |slots| && Shows(list[k], slots[at[k]]))
    && (forall j, k :: 0 <= j < k < |at| ==> at[j] < at[k])
    && (forall i :: 0 <= i < |slots| && slots[i].active && !slots[i].closing && slots[i].joined ==> i in at)
  }

  ghost predicate ListsJoined(list: Roster, slots: seq<Slot>) {
    exists at :: ListsAt(list, slots, at)
  }

  /** A list of all slots but the last, extended by the last one. */
  lemma ListsLast(list: Roster, slots: seq<Slot>, at: seq<nat>)
    requires slots != [] && ListsAt(list, slots[..|slots| - 1], at)
    ensures !Member(slots[|slots| - 1]) ==> ListsAt(list, slots, at)
    ensures forall entry :: Shows(entry, slots[|slots| - 1]) ==> ListsAt(list + [entry], slots, at + [|slots| - 1])
  {
    var front := slots[..|slots| - 1];
    forall k | 0 <= k < |at| ensures at[k] < |front| && Shows(list[k], slots[at[k]]) {
      assert front[at[k]] == slots[at[k]];
    }
    forall i | 0 <= i < |front| && Member(slots[i]) ensures i in at {
      assert front[i] == slots[i];
    }
    assert forall i :: i in at ==> i in at + [|slots| - 1];
  }

  lemma {:induction false} RosterLists(slots: seq<Slot>) returns (at: seq<nat>)
    requires forall i :: 0 <= i < |slots| ==> SlotOk(slots[i])
    ensures ListsAt(RosterOf(slots), slots, at)
  {
    at := [];
    if slots != [] {
      var last := slots[|slots| - 1];
      at := RosterLists(slots[..|slots| - 1]);
      ListsLast(RosterOf(slots[..|slots| - 1]), slots, at);
      if Member(last) {
        at := at + [|slots| - 1];
        assert Shows((last.userId, if last.name != [] then last.name else NEW_USER), last);
      }
    }
  }

  lemma EntryIsShown(list: Roster, slots: seq<Slot>, at: seq<nat>, k: nat)
    requires ListsAt(list, slots, at) && k < |list|
    ensures exists i :: 0 <= i < |slots| && Shows(list[k], slots[i])
  {
    assert Shows(list[k], slots[at[k]]);
  }

  lemma ShownIsEntry(list: Roster, slots: seq<Slot>, at: seq<nat>, i: nat, entry: (Text, Text))
    requires ListsAt(list, slots, at) && i < |slots| && Shows(entry, slots[i])
    ensures entry in list
  {
    assert i in at;
    var k :| 0 <= k < |at| && at[k] == i;
    assert Shows(list[k], slots[i]) && list[k] == entry;
  }

  lemma EntriesDiffer(list: Roster, slots: seq<Slot>, at: seq<nat>, j: nat, k: nat)
    requires TableOk(slots) && ListsAt(list, slots, at) && j < k < |list|
    ensures list[j].0 != list[k].0
  {
    assert Shows(list[j], slots[at[j]]) && Shows(list[k], slots[at[k]]);
    assert at[j] < at[k];
  }

  lemma ListedAreShown(list: Roster, slots: seq<Slot>, at: seq<nat>, entry: (Text, Text))
    requires ListsAt(list, slots, at)
    ensures entry in list <==> exists i :: 0 <= i < |slots| && Shows(entry, slots[i])
  {
    if entry in list {
      var k :| 0 <= k < |list| && list[k] == entry;
      EntryIsShown(list, slots, at, k);
    }
    if i :| 0 <= i < |slots| && Shows(entry, slots[i]) {
      ShownIsEntry(list, slots, at, i, entry);
    }
  }

  /** So an id and a name are listed exactly if a joined slot has them, and no id is listed twice. */
  lemma ListedExactly(list: Roster, slots: seq<Slot>)
    requires TableOk(slots) && ListsJoined(list, slots)
    ensures forall entry :: entry in list <==> exists i :: 0 <= i < |slots| && Shows(entry, slots[i])
    ensures forall j, k :: 0 <= j < k < |list| ==> list[j].0 != list[k].0
  {
    var at :| ListsAt(list, slots, at);
    forall entry ensures entry in list <==> exists i :: 0 <= i < |slots| && Shows(entry, slots[i]) {
      ListedAreShown(list, slots, at, entry);
    }
    forall j, k | 0 <= j < k < |list| ensures list[j].0 != list[k].0 {
      EntriesDiffer(list, slots, at, j, k);
    }
  }

  // ---- Searches ----

  lemma {:induction false} FirstOnFinds(slots: seq<Slot>, n: nat, fd: int)
    requires n <= |slots|
    ensures var i := FirstOn(slots, n, fd); -1 <= i < n && (i >= 0 ==> On(slots[i], fd))
    ensures FirstOn(slots, n, fd) == -1 ==> forall k :: 0 <= k < n ==> !On(slots[k], fd)
  {
    if n > 0 {
      FirstOnFinds(slots, n - 1, fd);
    }
  }

  lemma {:induction false} FirstOpenFinds(slots: seq<Slot>, n: nat, fd: int)
    requires n <= |slots|
    ensures var i := FirstOpen(slots, n, fd); -1 <= i < n && (i >= 0 ==> Open(slots[i], fd))
    ensures FirstOpen(slots, n, fd) == -1 ==> forall k :: 0 <= k < n ==> !Open(slots[k], fd)
  {
    if n > 0 {
      FirstOpenFinds(slots, n - 1, fd);
    }
  }

  lemma {:induction false} FirstOpenJoinedFinds(slots: seq<Slot>, n: nat, fd: int)
    requires n <= |slots|
    ensures var i := FirstOpenJoined(slots, n, fd); -1 <= i < n && (i >= 0 ==> OpenJoined(slots[i], fd))
    ensures FirstOpenJoined(slots, n, fd) == -1 ==> forall k :: 0 <= k < n ==> !OpenJoined(slots[k], fd)
  {
    if n > 0 {
      FirstOpenJoinedFinds(slots, n - 1, fd);
    }
  }

  lemma {:induction false} FirstFreeFinds(slots: seq<Slot>, n: nat)
    requires n <= |slots|
    ensures var i := FirstFree(slots, n); -1 <= i < n && (i >= 0 ==> !slots[i].active)
    ensures FirstFree(slots, n) == -1 ==> forall k :: 0 <= k < n ==> slots[k].active
  {
    if n > 0 {
      FirstFreeFinds(slots, n - 1);
    }
  }

  lemma {:induction false} LastOpenFinds(slots: seq<Slot>, n: nat, fd: int)
    requires n <= |slots|
    ensures var i := LastOpen(slots, n, fd); -1 <= i < n && (i >= 0 ==> Open(slots[i], fd))
    ensures LastOpen(slots, n, fd) == -1 ==> forall k :: 0 <= k < n ==> !Open(slots[k], fd)
  {
    if n > 0 && !Open(slots[n - 1], fd) {
      LastOpenFinds(slots, n - 1, fd);
    }
  }

  lemma {:induction false} StaleFdsMeaning(slots: seq<Slot>, n: nat, target: int, fd: int, user: Text)
    requires n <= |slots|
    ensures forall x :: x in StaleFds(slots, n, target, fd, user) ==>
                          x != fd && exists i :: 0 <= i < n && i != target && Stale(slots[i], user) && slots[i].fd == x
  {
    if n > 0 {
      StaleFdsMeaning(slots, n - 1, target, fd, user);
    }
  }

  /** A relay goes exactly to the joined slots of the users it names. */
  lemma {:induction false} RecipientFdsMeaning(slots: seq<Slot>, users: set<Text>, fd: int)
    ensures fd in RecipientFds(slots, users) <==>
            exists i :: 0 <= i < |slots| && Recipient(slots[i], users) && slots[i].fd == fd
  {
    if slots != [] {
      var last := |slots| - 1;
      RecipientFdsMeaning(slots[..last], users, fd);
      if fd in RecipientFds(slots[..last], users) {
        var i :| 0 <= i < last && Recipient(slots[..last][i], users) && slots[..last][i].fd == fd;
        assert Recipient(slots[i], users);
      }
      if i :| 0 <= i < |slots| && Recipient(slots[i], users) && slots[i].fd == fd {
        if i < last {
          assert Recipient(slots[..last][i], users) && slots[..last][i].fd == fd;
        }
      }
    }
  }
}
