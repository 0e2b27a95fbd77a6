/**
 Who gets a message: a connection that is still joined afterwards got every send made to it. The
 end-to-end model relies on this when it lets a failed send end a connection.
 */
module SessionDelivery {
  import opened ChatTypes
  import opened SessionTable
  import opened SessionFacts
  import opened SessionSteps

  /** The `k`-th of the sends made from now on fails. */
  predicate Fails(w: World, net: Net, k: nat) {
    !net(|w.sent| + k)
  }

  predicate ClosedOn(slots: seq<Slot>, fd: int) {
    forall i :: 0 <= i < |slots| && On(slots[i], fd) ==> slots[i].closing
  }

  lemma ClosedStaysClosed(s: seq<Slot>, t: seq<Slot>, fd: int)
    requires Shrinks(s, t) && ClosedOn(s, fd)
    ensures ClosedOn(t, fd)
  {
  }

  lemma ClosedIsNoMember(slots: seq<Slot>, fd: int)
    requires ClosedOn(slots, fd)
    ensures !MemberOn(slots, fd)
  {
  }

  /** One send of the same text for each descriptor. */
  function Sends(fds: seq<int>, packet: Packet): seq<Sent> {
    seq(|fds|, k requires 0 <= k < |fds| => Sent(fds[k], packet))
  }

  lemma NthSend(before: seq<Sent>, fds: seq<int>, packet: Packet, after: seq<Sent>, n: nat)
    requires before + Sends(fds, packet) <= after && |before| <= n < |before| + |fds|
    ensures n < |after| && after[n] == Sent(fds[n - |before|], packet)
  {
    assert after[n] == (before + Sends(fds, packet))[n];
  }

  /** A loop of sends makes one send for each descriptor, in order, and closes exactly those whose send fails. */
  lemma {:induction false} EachGetsOneSend(w: World, fds: seq<int>, packet: Packet, net: Net)
    ensures var (w', closed) := BroadcastTo(w, fds, packet, net);
            && w'.sent == w.sent + Sends(fds, packet)
            && (closed <==> exists k :: 0 <= k < |fds| && Fails(w, net, k))
            && |w'.slots| == |w.slots|
            && (forall k :: 0 <= k < |fds| && Fails(w, net, k) ==> ClosedOn(w'.slots, fds[k]))
            && (forall i :: 0 <= i < |w.slots| && w'.slots[i] != w.slots[i] ==>
                              exists k :: 0 <= k < |fds| && Fails(w, net, k) && fds[k] == w.slots[i].fd)
    decreases |fds|
  {
    if fds != [] {
      var (w1, ok) := Send(w, fds[0], packet, net);
      var next := if ok then w1 else CloseClient(w1, fds[0]);
      var w' := BroadcastTo(w, fds, packet, net).0;
      EachGetsOneSend(next, fds[1..], packet, net);
      BroadcastToCloses(next, fds[1..], packet, net);
      assert ok == !Fails(w, net, 0);
      LaterFailures(w, next, fds, net);
      assert Sends(fds, packet) == [Sent(fds[0], packet)] + Sends(fds[1..], packet);
      if !ok {
        ClosedStaysClosed(next.slots, w'.slots, fds[0]);
      }
      forall i | 0 <= i < |w.slots| && w'.slots[i] != w.slots[i]
        ensures exists k :: 0 <= k < |fds| && Fails(w, net, k) && fds[k] == w.slots[i].fd
      {
        if next.slots[i] == w.slots[i] {
          var k :| 0 <= k < |fds| - 1 && Fails(next, net, k) && fds[1..][k] == next.slots[i].fd;
          assert Fails(w, net, k + 1) && fds[k + 1] == w.slots[i].fd;
        }
      }
    }
  }

  /** The sends after the first, counted from one on. */
  lemma LaterFailures(w: World, next: World, fds: seq<int>, net: Net)
    requires fds != [] && |next.sent| == |w.sent| + 1
    ensures forall k :: 0 < k < |fds| ==> Fails(w, net, k) == Fails(next, net, k - 1) && fds[k] == fds[1..][k - 1]
    ensures (exists k :: 0 <= k < |fds| && Fails(w, net, k)) <==>
            Fails(w, net, 0) || exists k :: 0 <= k < |fds[1..]| && Fails(next, net, k)
  {
    forall k | 0 <= k < |fds[1..]| ensures Fails(next, net, k) == Fails(w, net, k + 1) {
    }
    if k :| 0 <= k < |fds| && Fails(w, net, k) {
      assert k > 0 ==> Fails(next, net, k - 1);
    }
  }

  /**
   A stored chat message goes to every connection joined at the time: whoever is still joined after
   the handler has run got the send that was made to it.
   */
  lemma ChatReachesEveryMember(w: World, fd: int, infoAlloc: bool, net: Net, k: nat)
    requires TableOk(w.slots) && PresenceOk(w) && k < |MemberFds(w.slots)|
    ensures MemberOn(HandleChat(w, fd, true, infoAlloc, net).slots, MemberFds(w.slots)[k]) ==> !Fails(w, net, k)
  {
    var fds := MemberFds(w.slots);
    var w1 := Broadcast(w, ChatText, net).0;
    var after := HandleChat(w, fd, true, infoAlloc, net);
    EachGetsOneSend(w, fds, ChatText, net);
    ChatOnlyClosesLater(w, fd, infoAlloc, net);
    if Fails(w, net, k) {
      ClosedStaysClosed(w1.slots, after.slots, fds[k]);
      ClosedIsNoMember(after.slots, fds[k]);
    }
  }

  lemma ChatOnlyClosesLater(w: World, fd: int, infoAlloc: bool, net: Net)
    requires TableOk(w.slots) && PresenceOk(w)
    ensures OnlyCloses(Broadcast(w, ChatText, net).0, HandleChat(w, fd, true, infoAlloc, net))
  {
    var (w1, closed1) := Broadcast(w, ChatText, net);
    var (w2, closed2) := if infoAlloc then Broadcast(w1, InfoText, net) else (w1, false);
    BroadcastToCloses(w1, MemberFds(w1.slots), InfoText, net);
    PresenceIfCloses(w2, closed1 || closed2, net);
    OnlyClosesTrans(w1, w2, HandleChat(w, fd, true, infoAlloc, net));
  }

  /** The `k`-th send of the handler goes to the `k`-th of them. */
  lemma ChatIsSentInOrder(w: World, fd: int, infoAlloc: bool, net: Net, k: nat)
    requires TableOk(w.slots) && PresenceOk(w) && k < |MemberFds(w.slots)|
    ensures var sent := HandleChat(w, fd, true, infoAlloc, net).sent;
            |w.sent| + k < |sent| && sent[|w.sent| + k] == Sent(MemberFds(w.slots)[k], ChatText)
  {
    EachGetsOneSend(w, MemberFds(w.slots), ChatText, net);
    ChatOnlyClosesLater(w, fd, infoAlloc, net);
    NthSend(w.sent, MemberFds(w.slots), ChatText, HandleChat(w, fd, true, infoAlloc, net).sent, |w.sent| + k);
  }

  lemma {:induction false} ReplayIsWhole(w: World, fd: int, allocs: seq<bool>, net: Net)
    requires Replay(w, fd, allocs, net).1
    ensures forall k :: 0 <= k < |allocs| ==> allocs[k] && !Fails(w, net, k)
    decreases |allocs|
  {
    if allocs != [] {
      var next := Send(w, fd, ReplayText, net).0;
      ReplayIsWhole(next, fd, allocs[1..], net);
      forall k | 0 < k < |allocs| ensures allocs[k] && !Fails(w, net, k) {
        assert allocs[k] == allocs[1..][k - 1] && !Fails(next, net, k - 1);
      }
    }
  }

  /** The table a join has bound, from which the replay starts. */
  function Bound(w: World, fd: int, user: Text, name: Text, sample: Option<int>, now: int, net: Net): World {
    var w1 := UpdateIdentity(w, fd, user, name, now, net).0;
    w1.(slots := UpdateTimeSample(w1.slots, fd, sample))
  }

  /** A connection that is joined after a join got every message of the replay. */
  lemma JoinedMeansReplayed(w: World, fd: int, r: JoinRequest, now: int, net: Net)
    requires Good(w) && AnyOpen(w.slots, fd) && !JoinRefused(w, fd, r) && r.from.value != []
    ensures MemberOn(HandleJoin(w, fd, r, now, net).slots, fd) ==>
              forall k :: 0 <= k < |r.replayAllocs| ==>
                            && r.replayAllocs[k]
                            && !Fails(Bound(w, fd, r.from.value, r.name.value, r.sample, now, net), net, k)
  {
    var bound := Bound(w, fd, r.from.value, r.name.value, r.sample, now, net);
    JoinBinds(w, fd, r.from.value, r.name.value, r.sample, now, net);
    var (w1, synced) := Synchronize(bound, fd, r, net);
    if synced {
      ReplayIsWhole(bound, fd, r.replayAllocs, net);
    } else {
      ClosedAfterClose(w1.slots, fd);
      ClosedIsNoMember(MarkClosing(w1.slots, fd), fd);
    }
  }

  lemma ClosedAfterClose(slots: seq<Slot>, fd: int)
    ensures ClosedOn(MarkClosing(slots, fd), fd)
  {
  }
}
