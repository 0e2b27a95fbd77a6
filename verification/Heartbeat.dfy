/** When the heartbeat closes a joined connection: only for a reason, and in bounded time. */
module Heartbeat {
  import opened ChatTypes
  import opened SessionTable
  import opened SessionFacts
  import opened SessionSteps
  import opened SessionRuns
  import opened SessionDelivery

  // ---- Soundness: what the history says about a missed heartbeat ----

  predicate TrafficOn(o: Observation, fd: int) {
    o.Traffic? && o.fd == fd
  }

  predicate SilentFrom(trace: seq<Observation>, k: int, fd: int)
    requires 0 <= k
  {
    forall j :: k <= j < |trace| ==> !TrafficOn(trace[j], fd)
  }

  /** A ping was sent to `fd` at `at`, its send succeeded, and nothing has come from `fd` since. */
  predicate PingStands(trace: seq<Observation>, fd: int, at: int, net: Net) {
    exists k :: 0 <= k < |trace| && PingedAt(trace[k], fd, at, net) && SilentFrom(trace, k, fd)
  }

  predicate PingedAt(o: Observation, fd: int, at: int, net: Net) {
    o.Pinged? && o.fd == fd && o.at == at && net(o.send)
  }

  /** The send of a recorded ping is a ping to that connection. */
  predicate PingSent(o: Observation, sent: seq<Sent>) {
    o.Pinged? ==> o.send < |sent| && sent[o.send] == Sent(o.fd, PingText)
  }

  predicate PingsAreSent(w: World) {
    forall k :: 0 <= k < |w.trace| ==> PingSent(w.trace[k], w.sent)
  }

  /** The miss recorded last is of a sweep in time, at least `h` after a ping with no traffic since. */
  ghost predicate Justified(trace: seq<Observation>, miss: Observation, h: int, net: Net)
    requires miss.Missed?
  {
    !miss.delayed && exists at :: at <= miss.at - h && PingStands(trace, miss.fd, at, net)
  }

  predicate DeadArePinged(w: World, net: Net) {
    forall i :: 0 <= i < |w.slots| && Member(w.slots[i]) && !w.slots[i].isAlive ==>
                  PingStands(w.trace, w.slots[i].fd, w.slots[i].lastPing, net)
  }

  ghost predicate MissesJustified(trace: seq<Observation>, h: int, net: Net) {
    forall m :: 0 <= m < |trace| && trace[m].Missed? ==> Justified(trace[..m], trace[m], h, net)
  }

  lemma PingStandsOn(trace: seq<Observation>, more: seq<Observation>, fd: int, at: int, net: Net)
    requires PingStands(trace, fd, at, net) && SilentFrom(more, 0, fd)
    ensures PingStands(trace + more, fd, at, net)
  {
    var k :| 0 <= k < |trace| && PingedAt(trace[k], fd, at, net) && SilentFrom(trace, k, fd);
    assert (trace + more)[k] == trace[k] && SilentFrom(trace + more, k, fd);
  }

  // ---- What a sweep records, and what it sends ----

  function PingsOf(slots: seq<Slot>, n: nat, now: int, delayed: bool, h: int): seq<int>
    requires n <= |slots|
  {
    Findings(slots, n, now, delayed, h).2
  }

  /** Each observation of a sweep comes from one slot. */
  lemma {:induction false} ObservedFrom(slots: seq<Slot>, n: nat, now: int, delayed: bool, h: int, first: nat)
    requires n <= |slots|
    ensures forall o :: o in Observe(slots, n, now, delayed, h, first) ==>
                          exists i, send :: 0 <= i < n && o in ObserveSlot(slots[i], now, delayed, h, send)
  {
    if n > 0 {
      ObservedFrom(slots, n - 1, now, delayed, h, first);
    }
  }

  lemma ObserveNext(slots: seq<Slot>, n: nat, now: int, delayed: bool, h: int, first: nat)
    requires n < |slots|
    ensures PingsOf(slots, n + 1, now, delayed, h) ==
            PingsOf(slots, n, now, delayed, h) + if Judge(slots[n], now, delayed, h).1.Ping? then [slots[n].fd] else []
    ensures Observe(slots, n + 1, now, delayed, h, first) ==
            Observe(slots, n, now, delayed, h, first) +
            ObserveSlot(slots[n], now, delayed, h, first + |PingsOf(slots, n, now, delayed, h)|)
  {
  }

  /** The `k`-th ping recorded is the `k`-th of the sweep's sends, to the slot it was judged for. */
  lemma {:induction false} PingIsNumbered(slots: seq<Slot>, n: nat, now: int, delayed: bool, h: int, first: nat,
                                          o: Observation)
    requires n <= |slots| && o.Pinged? && o in Observe(slots, n, now, delayed, h, first)
    ensures o.at == now && first <= o.send < first + |PingsOf(slots, n, now, delayed, h)|
    ensures PingsOf(slots, n, now, delayed, h)[o.send - first] == o.fd
  {
    if n > 0 {
      ObserveNext(slots, n - 1, now, delayed, h, first);
      if o in Observe(slots, n - 1, now, delayed, h, first) {
        PingIsNumbered(slots, n - 1, now, delayed, h, first, o);
      }
    }
  }

  /** The ping is recorded, and the `k`-th of the sweep's sends goes to the slot it was judged for. */
  ghost predicate PingListed(log: seq<Observation>, pings: seq<int>, o: Observation, k: nat)
    requires o.Pinged?
  {
    o in log && k < |pings| && pings[k] == o.fd
  }

  lemma ListedStays(log: seq<Observation>, more: seq<Observation>, pings: seq<int>, others: seq<int>,
                    o: Observation, k: nat)
    requires o.Pinged? && PingListed(log, pings, o, k)
    ensures PingListed(log + more, pings + others, o, k)
  {
    assert (pings + others)[k] == pings[k];
  }

  lemma LastPingIsListed(slots: seq<Slot>, i: nat, now: int, delayed: bool, h: int, first: nat)
    requires i < |slots| && Judge(slots[i], now, delayed, h).1.Ping?
    ensures var k := |PingsOf(slots, i, now, delayed, h)|;
            PingListed(Observe(slots, i + 1, now, delayed, h, first), PingsOf(slots, i + 1, now, delayed, h),
                       Pinged(slots[i].fd, now, first + k), k)
  {
    ObserveNext(slots, i, now, delayed, h, first);
    var k := |PingsOf(slots, i, now, delayed, h)|;
    assert Pinged(slots[i].fd, now, first + k) in ObserveSlot(slots[i], now, delayed, h, first + k);
  }

  lemma NextKeepsListed(slots: seq<Slot>, n: nat, now: int, delayed: bool, h: int, first: nat, o: Observation, k: nat)
    requires n < |slots| && o.Pinged?
    requires PingListed(Observe(slots, n, now, delayed, h, first), PingsOf(slots, n, now, delayed, h), o, k)
    ensures PingListed(Observe(slots, n + 1, now, delayed, h, first), PingsOf(slots, n + 1, now, delayed, h), o, k)
  {
    var log, pings := Observe(slots, n, now, delayed, h, first), PingsOf(slots, n, now, delayed, h);
    ObserveNext(slots, n, now, delayed, h, first);
    ListedStays(log, ObserveSlot(slots[n], now, delayed, h, first + |pings|), pings,
                if Judge(slots[n], now, delayed, h).1.Ping? then [slots[n].fd] else [], o, k);
  }

  /** Each slot judged so is pinged, with the send that its place among them gives. */
  lemma {:induction false} EachPingIsRecorded(slots: seq<Slot>, n: nat, now: int, delayed: bool, h: int, first: nat,
                                              i: nat, o: Observation, k: nat)
    requires i < n <= |slots| && Judge(slots[i], now, delayed, h).1.Ping?
    requires k == |PingsOf(slots, i, now, delayed, h)| && o == Pinged(slots[i].fd, now, first + k)
    ensures PingListed(Observe(slots, n, now, delayed, h, first), PingsOf(slots, n, now, delayed, h), o, k)
  {
    if i == n - 1 {
      LastPingIsListed(slots, i, now, delayed, h, first);
    } else {
      EachPingIsRecorded(slots, n - 1, now, delayed, h, first, i, o, k);
      NextKeepsListed(slots, n - 1, now, delayed, h, first, o, k);
    }
  }

  lemma SweepsAreSilent(slots: seq<Slot>, now: int, delayed: bool, h: int, first: nat, fd: int)
    ensures SilentFrom(Observe(slots, |slots|, now, delayed, h, first), 0, fd)
  {
    var more := Observe(slots, |slots|, now, delayed, h, first);
    ObservedFrom(slots, |slots|, now, delayed, h, first);
    forall j | 0 <= j < |more| ensures !TrafficOn(more[j], fd) {
      assert more[j] in more;
    }
  }

  /** The first sends are pings to these descriptors, in order, and whoever is still joined got them. */
  predicate PingsAreFirst(w: World, w': World, pings: seq<int>, net: Net) {
    && w.sent + Sends(pings, PingText) <= w'.sent
    && forall k :: 0 <= k < |pings| && !net(|w.sent| + k) ==> !MemberOn(w'.slots, pings[k])
  }

  /** After a loop of pings connections are only closed. */
  lemma LoopSendsPings(w: World, pings: seq<int>, w': World, net: Net)
    requires OnlyCloses(BroadcastTo(w, pings, PingText, net).0, w')
    ensures PingsAreFirst(w, w', pings, net)
  {
    var w1 := BroadcastTo(w, pings, PingText, net).0;
    EachGetsOneSend(w, pings, PingText, net);
    forall k | 0 <= k < |pings| && !net(|w.sent| + k) ensures !MemberOn(w'.slots, pings[k]) {
      assert Fails(w, net, k);
      ClosedStaysClosed(w1.slots, w'.slots, pings[k]);
      ClosedIsNoMember(w'.slots, pings[k]);
    }
  }

  /** A sweep's first sends are its pings, in slot order; the connection of one that fails is closed. */
  lemma SweepSendsPings(w: World, now: int, h: int, net: Net)
    requires Good(w)
    ensures PingsAreFirst(w, Sweep(w, now, h, net), PingsOf(w.slots, |w.slots|, now, now - w.lastSweep > h, h), net)
  {
    var w1 := Judged(w, now, h);
    var (missed, closes, pings) := Findings(w.slots, |w.slots|, now, now - w.lastSweep > h, h);
    CloseAllCloses(w1, closes);
    var w2 := CloseAll(w1, closes);
    var (w3, failed) := BroadcastTo(w2, pings, PingText, net);
    PresenceIfCloses(w3, missed || failed, net);
    LoopSendsPings(w2, pings, Sweep(w, now, h, net), net);
  }

  /** So every ping recorded by a sweep was sent, and who is still joined afterwards got it. */
  lemma {:induction false} RecordedPingIsSent(w: World, now: int, h: int, net: Net, o: Observation)
    requires Good(w) && o.Pinged? && o in Observe(w.slots, |w.slots|, now, now - w.lastSweep > h, h, |w.sent|)
    ensures var w' := Sweep(w, now, h, net);
            && o.at == now && PingSent(o, w'.sent)
            && (MemberOn(w'.slots, o.fd) ==> net(o.send))
  {
    PingIsNumbered(w.slots, |w.slots|, now, now - w.lastSweep > h, h, |w.sent|, o);
    SweepSendsPings(w, now, h, net);
    var pings := PingsOf(w.slots, |w.slots|, now, now - w.lastSweep > h, h);
    NumberedPingIsSent(w, Sweep(w, now, h, net), pings, net, o);
  }

  lemma NumberedPingIsSent(w: World, w': World, pings: seq<int>, net: Net, o: Observation)
    requires PingsAreFirst(w, w', pings, net)
    requires o.Pinged? && |w.sent| <= o.send < |w.sent| + |pings| && pings[o.send - |w.sent|] == o.fd
    ensures PingSent(o, w'.sent) && (MemberOn(w'.slots, o.fd) ==> net(o.send))
  {
    NthSend(w.sent, pings, PingText, w'.sent, o.send);
    assert |w.sent| + (o.send - |w.sent|) == o.send;
  }

  lemma LastPingStands(trace: seq<Observation>, more: seq<Observation>, o: Observation, net: Net)
    requires o in more && o.Pinged? && net(o.send) && SilentFrom(more, 0, o.fd)
    ensures PingStands(trace + more, o.fd, o.at, net)
  {
    var k :| 0 <= k < |more| && more[k] == o;
    assert (trace + more)[|trace| + k] == o && SilentFrom(trace + more, |trace| + k, o.fd);
  }

  /** A ping recorded by this very sweep stands, unless its connection has been closed. */
  lemma FreshPingStands(w: World, now: int, h: int, net: Net, i: nat)
    requires Good(w) && i < |w.slots| && Judge(w.slots[i], now, now - w.lastSweep > h, h).1.Ping?
    requires MemberOn(Sweep(w, now, h, net).slots, w.slots[i].fd)
    ensures PingStands(Judged(w, now, h).trace, w.slots[i].fd, now, net)
  {
    var delayed, fd := now - w.lastSweep > h, w.slots[i].fd;
    var place := |PingsOf(w.slots, i, now, delayed, h)|;
    var o := Pinged(fd, now, |w.sent| + place);
    EachPingIsRecorded(w.slots, |w.slots|, now, delayed, h, |w.sent|, i, o, place);
    SweepsAreSilent(w.slots, now, delayed, h, |w.sent|, fd);
    RecordedPingIsSent(w, now, h, net, o);
    LastPingStands(w.trace, Observe(w.slots, |w.slots|, now, delayed, h, |w.sent|), o, net);
  }

  // ---- Sweeps, frames and callbacks keep the history sound ----

  lemma DeadSlotIsPinged(w: World, now: int, h: int, net: Net, i: nat)
    requires Good(w) && DeadArePinged(w, net) && i < |w.slots|
    requires var slot := Judged(w, now, h).slots[i];
             && Member(slot) && !slot.isAlive && MemberOn(Sweep(w, now, h, net).slots, slot.fd)
    ensures var w1 := Judged(w, now, h); PingStands(w1.trace, w1.slots[i].fd, w1.slots[i].lastPing, net)
  {
    var delayed := now - w.lastSweep > h;
    JudgedDead(w.slots[i], now, delayed, h);
    if Judge(w.slots[i], now, delayed, h).1.Ping? {
      FreshPingStands(w, now, h, net, i);
    } else {
      SweepsAreSilent(w.slots, now, delayed, h, |w.sent|, w.slots[i].fd);
      PingStandsOn(w.trace, Observe(w.slots, |w.slots|, now, delayed, h, |w.sent|), w.slots[i].fd,
                   w.slots[i].lastPing, net);
    }
  }

  lemma SweepKeepsDead(w: World, now: int, h: int, net: Net)
    requires Good(w) && DeadArePinged(w, net)
    ensures DeadArePinged(Sweep(w, now, h, net), net)
  {
    var w1, w' := Judged(w, now, h), Sweep(w, now, h, net);
    SweepGood(w, now, h, net);
    forall i | 0 <= i < |w'.slots| && Member(w'.slots[i]) && !w'.slots[i].isAlive
      ensures PingStands(w'.trace, w'.slots[i].fd, w'.slots[i].lastPing, net)
    {
      assert w'.slots[i] == w1.slots[i];
      DeadSlotIsPinged(w, now, h, net, i);
    }
  }

  lemma JudgedDead(slot: Slot, now: int, delayed: bool, h: int)
    requires Member(Judge(slot, now, delayed, h).0) && !Judge(slot, now, delayed, h).0.isAlive
    ensures var (t, action) := Judge(slot, now, delayed, h);
            && t.fd == slot.fd
            && (action.Ping? ==> t.lastPing == now)
            && (!action.Ping? ==> Member(slot) && !slot.isAlive && t == slot)
  {
  }

  lemma JudgedMissed(slot: Slot, now: int, delayed: bool, h: int, send: nat, o: Observation)
    requires o in ObserveSlot(slot, now, delayed, h, send) && o.Missed?
    ensures o == Missed(slot.fd, now, delayed) && !delayed
    ensures Member(slot) && !slot.isAlive && slot.lastPing <= now - h
  {
  }

  lemma SweepJustifies(w: World, now: int, h: int, net: Net)
    requires DeadArePinged(w, net) && MissesJustified(w.trace, h, net)
    ensures MissesJustified(Judged(w, now, h).trace, h, net)
  {
    var delayed := now - w.lastSweep > h;
    var more := Observe(w.slots, |w.slots|, now, delayed, h, |w.sent|);
    var trace := w.trace + more;
    forall m | 0 <= m < |trace| && trace[m].Missed? ensures Justified(trace[..m], trace[m], h, net) {
      if m < |w.trace| {
        assert trace[..m] == w.trace[..m];
      } else {
        var j := m - |w.trace|;
        ObservedFrom(w.slots, |w.slots|, now, delayed, h, |w.sent|);
        assert more[j] in more;
        var i, send :| 0 <= i < |w.slots| && more[j] in ObserveSlot(w.slots[i], now, delayed, h, send);
        JudgedMissed(w.slots[i], now, delayed, h, send, more[j]);
        SweepsAreSilent(w.slots, now, delayed, h, |w.sent|, w.slots[i].fd);
        PingStandsOn(w.trace, more[..j], w.slots[i].fd, w.slots[i].lastPing, net);
        assert trace[..m] == w.trace + more[..j];
      }
    }
  }

  lemma SweepKeepsPingsSent(w: World, now: int, h: int, net: Net)
    requires Good(w) && PingsAreSent(w)
    ensures PingsAreSent(Sweep(w, now, h, net))
  {
    var w' := Sweep(w, now, h, net);
    var more := Observe(w.slots, |w.slots|, now, now - w.lastSweep > h, h, |w.sent|);
    SweepGood(w, now, h, net);
    forall k | 0 <= k < |w'.trace| ensures PingSent(w'.trace[k], w'.sent) {
      if k < |w.trace| {
        assert w'.trace[k] == w.trace[k] && PingSent(w.trace[k], w.sent);
      } else if w'.trace[k].Pinged? {
        assert w'.trace[k] == more[k - |w.trace|];
        RecordedPingIsSent(w, now, h, net, w'.trace[k]);
      }
    }
  }

  lemma TrafficKeepsHistory(w: World, w': World, fd: int, now: int, later: int, h: int, net: Net)
    requires DeadArePinged(w, net) && MissesJustified(w.trace, h, net) && PingsAreSent(w)
    requires Handled(w, w', fd, now, later)
    ensures DeadArePinged(w', net) && MissesJustified(w'.trace, h, net) && PingsAreSent(w')
  {
    forall i | 0 <= i < |w'.slots| && Member(w'.slots[i]) && !w'.slots[i].isAlive
      ensures PingStands(w'.trace, w'.slots[i].fd, w'.slots[i].lastPing, net)
    {
      PingStandsOn(w.trace, [Traffic(fd, now)], w'.slots[i].fd, w'.slots[i].lastPing, net);
    }
    forall m | 0 <= m < |w'.trace| && w'.trace[m].Missed? ensures Justified(w'.trace[..m], w'.trace[m], h, net) {
      assert w'.trace[..m] == w.trace[..m];
    }
    forall k | 0 <= k < |w'.trace| ensures PingSent(w'.trace[k], w'.sent) {
      if k < |w.trace| {
        assert w'.trace[k] == w.trace[k] && PingSent(w.trace[k], w.sent);
      }
    }
  }

  lemma StepKeepsHistory(w: World, e: Event, setup: Setup)
    requires Good(w) && GoodEvent(e)
    requires DeadArePinged(w, setup.net) && MissesJustified(w.trace, setup.h, setup.net) && PingsAreSent(w)
    ensures var w' := Step(w, e, setup);
            DeadArePinged(w', setup.net) && MissesJustified(w'.trace, setup.h, setup.net) && PingsAreSent(w')
  {
    match e
    case Closes(fd) => SessionClosedGood(w, fd, setup.net);
    case Sweeps(now) =>
      SweepGood(w, now, setup.h, setup.net);
      SweepKeepsDead(w, now, setup.h, setup.net);
      SweepJustifies(w, now, setup.h, setup.net);
      SweepKeepsPingsSent(w, now, setup.h, setup.net);
    case _ =>
      TrafficHandles(w, e, setup);
      if Step(w, e, setup) != w {
        TrafficKeepsHistory(w, Step(w, e, setup), e.fd, e.now, Later(e), setup.h, setup.net);
      }
  }

  lemma {:induction false} HistoryIsSound(setup: Setup, events: seq<Event>)
    requires GoodEvents(events)
    ensures var w := Run(setup, events);
            DeadArePinged(w, setup.net) && MissesJustified(w.trace, setup.h, setup.net) && PingsAreSent(w)
  {
    if events != [] {
      HistoryIsSound(setup, events[..|events| - 1]);
      RunIsGood(setup, events[..|events| - 1]);
      StepKeepsHistory(Run(setup, events[..|events| - 1]), events[|events| - 1], setup);
    }
  }

  /** The `k`-th observation before a miss is a ping to that client, sent and delivered, and followed by silence. */
  predicate Unanswered(w: World, k: nat, m: nat, h: int, net: Net)
    requires k < m < |w.trace| && w.trace[m].Missed?
  {
    var ping, miss := w.trace[k], w.trace[m];
    && ping.Pinged? && ping.fd == miss.fd && ping.at <= miss.at - h
    && ping.send < |w.sent| && w.sent[ping.send] == Sent(miss.fd, PingText) && net(ping.send)
    && forall j :: k <= j < m ==> !TrafficOn(w.trace[j], miss.fd)
  }

  /**
   In every run a joined connection is closed for a missed heartbeat only by a sweep that is not
   delayed, at least the heartbeat interval after a ping that was really sent to it, with no frame
   from it in between.
   */
  lemma {:induction false} MissedOnlyWhenSilent(setup: Setup, events: seq<Event>, m: nat)
    requires GoodEvents(events) && m < |Run(setup, events).trace| && Run(setup, events).trace[m].Missed?
    ensures !Run(setup, events).trace[m].delayed
    ensures exists k :: 0 <= k < m && Unanswered(Run(setup, events), k, m, setup.h, setup.net)
  {
    var w, net := Run(setup, events), setup.net;
    HistoryIsSound(setup, events);
    var before, miss := w.trace[..m], w.trace[m];
    assert Justified(before, miss, setup.h, net);
    var at :| at <= miss.at - setup.h && PingStands(before, miss.fd, at, net);
    var k :| 0 <= k < |before| && PingedAt(before[k], miss.fd, at, net) && SilentFrom(before, k, miss.fd);
    assert before[k] == w.trace[k] && PingSent(w.trace[k], w.sent);
    forall j | k <= j < m ensures !TrafficOn(w.trace[j], miss.fd) {
      assert w.trace[j] == before[j];
    }
    assert Unanswered(w, k, m, setup.h, net);
  }

  // ---- Detection: a silent client is closed in time ----

  /** No clock reading of the event is after `a`. */
  predicate NotAfter(e: Event, a: int) {
    match e
    case Handshakes(_, now) => now <= a
    case FrameArrives(_, _, now, later) => now <= a && later <= a
    case Closes(_) => true
    case Sweeps(now) => now <= a
  }

  /** The state knows of no time after `a`. */
  predicate Until(w: World, a: int) {
    w.lastSweep <= a &&
    forall i :: 0 <= i < |w.slots| && w.slots[i].active ==> w.slots[i].lastPing <= a && w.slots[i].registeredAt <= a
  }

  lemma JudgedUntil(slot: Slot, now: int, delayed: bool, h: int, a: int)
    requires slot.active && slot.lastPing <= a && slot.registeredAt <= a && now <= a && h >= 0
    ensures Judge(slot, now, delayed, h).0.lastPing <= a && Judge(slot, now, delayed, h).0.registeredAt <= a
  {
  }

  lemma SweepKeepsUntil(w: World, now: int, h: int, a: int)
    requires Until(w, a) && now <= a && h >= 0
    ensures Until(Judged(w, now, h), a)
  {
    var w1 := Judged(w, now, h);
    forall i | 0 <= i < |w.slots| && w1.slots[i].active
      ensures w1.slots[i].lastPing <= a && w1.slots[i].registeredAt <= a
    {
      JudgeKeeps(w.slots[i], now, now - w.lastSweep > h, h);
      JudgedUntil(w.slots[i], now, now - w.lastSweep > h, h, a);
    }
  }

  lemma ClosingKeepsUntil(w: World, w': World, a: int)
    requires Until(w, a) && OnlyCloses(w, w')
    ensures Until(w', a)
  {
  }

  lemma TrafficKeepsUntil(w: World, w': World, fd: int, now: int, later: int, a: int)
    requires Until(w, a) && Handled(w, w', fd, now, later) && now <= a && later <= a
    ensures Until(w', a)
  {
  }

  lemma StepKeepsUntil(w: World, e: Event, setup: Setup, a: int)
    requires Good(w) && GoodEvent(e) && Until(w, a) && NotAfter(e, a) && setup.h >= 0
    ensures Until(Step(w, e, setup), a)
  {
    match e
    case Closes(fd) => SessionClosedGood(w, fd, setup.net);
    case Sweeps(now) =>
      SweepGood(w, now, setup.h, setup.net);
      SweepKeepsUntil(w, now, setup.h, a);
      ClosingKeepsUntil(Judged(w, now, setup.h), Step(w, e, setup), a);
    case _ =>
      TrafficHandles(w, e, setup);
      if Step(w, e, setup) != w {
        TrafficKeepsUntil(w, Step(w, e, setup), e.fd, e.now, Later(e), a);
      }
  }

  lemma {:induction false} RunUntil(setup: Setup, events: seq<Event>, a: int)
    requires GoodEvents(events) && setup.startedAt <= a && setup.h >= 0
    requires forall e :: e in events ==> NotAfter(e, a)
    ensures Until(Run(setup, events), a)
  {
    if events != [] {
      RunUntil(setup, events[..|events| - 1], a);
      RunIsGood(setup, events[..|events| - 1]);
      StepKeepsUntil(Run(setup, events[..|events| - 1]), events[|events| - 1], setup, a);
    }
  }

  /**
   A slot silent since `a`. If joined, it is not yet pinged again, or was pinged by `a + h + g` and
   is not yet due; if not, its time to join is not yet over.
   */
  predicate OnTheWayOut(slot: Slot, lastSweep: int, a: int, h: int, g: int) {
    if slot.joined then
      || (slot.lastPing <= a && (lastSweep <= a || lastSweep < slot.lastPing + h))
      || (!slot.isAlive && slot.lastPing <= a + h + g && lastSweep < slot.lastPing + h)
    else
      slot.registeredAt <= a && (lastSweep <= a || lastSweep < slot.registeredAt + WS_JOIN_TIMEOUT_S)
  }

  predicate Doomed(w: World, fd: int, a: int, h: int, g: int) {
    forall i :: 0 <= i < |w.slots| && Open(w.slots[i], fd) ==> OnTheWayOut(w.slots[i], w.lastSweep, a, h, g)
  }

  lemma JudgeBringsOut(slot: Slot, lastSweep: int, now: int, a: int, h: int, g: int)
    requires slot.active && !slot.closing && OnTheWayOut(slot, lastSweep, a, h, g)
    requires lastSweep <= now <= lastSweep + g && 0 <= g <= h && 0 < h
    ensures var t := Judge(slot, now, now - lastSweep > h, h).0; t.closing || OnTheWayOut(t, now, a, h, g)
  {
  }

  /** No frame and no new handshake comes from `fd`, and a sweep comes at most `g` after the one before. */
  predicate Quiet(w: World, e: Event, fd: int, g: int) {
    && (e.Handshakes? || e.FrameArrives? ==> e.fd != fd)
    && (e.Sweeps? ==> w.lastSweep <= e.now <= w.lastSweep + g)
  }

  lemma SweepKeepsDoomed(w: World, now: int, fd: int, a: int, h: int, g: int)
    requires Doomed(w, fd, a, h, g) && w.lastSweep <= now <= w.lastSweep + g && 0 <= g <= h && 0 < h
    ensures Doomed(Judged(w, now, h), fd, a, h, g)
  {
    var w1 := Judged(w, now, h);
    forall i | 0 <= i < |w.slots| && Open(w1.slots[i], fd) ensures OnTheWayOut(w1.slots[i], now, a, h, g)
    {
      JudgeKeeps(w.slots[i], now, now - w.lastSweep > h, h);
      JudgeBringsOut(w.slots[i], w.lastSweep, now, a, h, g);
    }
  }

  lemma ClosingKeepsDoomed(w: World, w': World, fd: int, a: int, h: int, g: int)
    requires Doomed(w, fd, a, h, g) && OnlyCloses(w, w')
    ensures Doomed(w', fd, a, h, g)
  {
  }

  /** Handlers of other connections, and close callbacks, leave `fd` alone or close it. */
  lemma OthersKeepDoomed(w: World, w': World, other: int, fd: int, a: int, h: int, g: int)
    requires Doomed(w, fd, a, h, g) && w'.lastSweep == w.lastSweep && OthersOnlyClose(w.slots, w'.slots, other)
    requires other != fd || forall i :: 0 <= i < |w'.slots| ==> !On(w'.slots[i], fd)
    ensures Doomed(w', fd, a, h, g)
  {
  }

  lemma StepKeepsDoomed(w: World, e: Event, setup: Setup, fd: int, a: int, g: int)
    requires Good(w) && GoodEvent(e) && Quiet(w, e, fd, g)
    requires 0 <= g <= setup.h && 0 < setup.h && Doomed(w, fd, a, setup.h, g)
    ensures Doomed(Step(w, e, setup), fd, a, setup.h, g)
  {
    match e
    case Closes(other) =>
      SessionClosedGood(w, other, setup.net);
      OthersKeepDoomed(w, Step(w, e, setup), other, fd, a, setup.h, g);
    case Sweeps(now) =>
      SweepGood(w, now, setup.h, setup.net);
      SweepKeepsDoomed(w, now, fd, a, setup.h, g);
      ClosingKeepsDoomed(Judged(w, now, setup.h), Step(w, e, setup), fd, a, setup.h, g);
    case _ =>
      TrafficHandles(w, e, setup);
      if Step(w, e, setup) != w {
        OthersKeepDoomed(w, Step(w, e, setup), e.fd, fd, a, setup.h, g);
      }
  }

  predicate QuietAt(setup: Setup, events: seq<Event>, k: nat, fd: int, g: int)
    requires k < |events|
  {
    Quiet(Run(setup, events[..k]), events[k], fd, g)
  }

  /** From event `i` on, `fd` is silent and sweeps are at most `g` apart. */
  predicate QuietSince(setup: Setup, events: seq<Event>, i: nat, fd: int, g: int)
    requires i <= |events|
  {
    forall k :: i <= k < |events| ==> QuietAt(setup, events, k, fd, g)
  }

  lemma QuietWhenShorter(setup: Setup, events: seq<Event>, n: nat, k: nat, fd: int, g: int)
    requires k < n <= |events| && QuietAt(setup, events, k, fd, g)
    ensures QuietAt(setup, events[..n], k, fd, g)
  {
    assert events[..n][..k] == events[..k];
  }

  lemma QuietBefore(setup: Setup, events: seq<Event>, i: nat, fd: int, g: int)
    requires i < |events| && QuietSince(setup, events, i, fd, g)
    ensures QuietSince(setup, events[..|events| - 1], i, fd, g)
    ensures Quiet(Run(setup, events[..|events| - 1]), events[|events| - 1], fd, g)
  {
    var last := |events| - 1;
    var shorter := events[..last];
    forall k | i <= k < last ensures QuietAt(setup, shorter, k, fd, g) {
      QuietWhenShorter(setup, events, last, k, fd, g);
    }
    assert QuietAt(setup, events, last, fd, g);
  }

  lemma UntilIsDoomed(w: World, fd: int, a: int, h: int, g: int)
    requires Until(w, a)
    ensures Doomed(w, fd, a, h, g)
  {
  }

  lemma {:induction false} DoomedThroughout(setup: Setup, events: seq<Event>, i: nat, fd: int, a: int, g: int)
    requires GoodEvents(events) && i <= |events|
    requires 0 <= g <= setup.h && 0 < setup.h && QuietSince(setup, events, i, fd, g)
    requires Until(Run(setup, events[..i]), a)
    ensures Doomed(Run(setup, events), fd, a, setup.h, g)
  {
    if i == |events| {
      assert events[..i] == events;
      UntilIsDoomed(Run(setup, events), fd, a, setup.h, g);
    } else {
      var shorter := events[..|events| - 1];
      assert shorter[..i] == events[..i];
      QuietBefore(setup, events, i, fd, g);
      DoomedThroughout(setup, shorter, i, fd, a, g);
      RunIsGood(setup, shorter);
      StepKeepsDoomed(Run(setup, shorter), events[|events| - 1], setup, fd, a, g);
    }
  }

  /**
   If sweeps come at most `g` apart, `g` being at most the heartbeat interval `h`, then a connection
   from which nothing comes after time `a` is no longer joined once `a + 2h + 2g` is reached, and
   if it never joined it is closed by the end of its time to join plus `g`. At such a time the last
   sweep is at most `g` old.
   */
  lemma SilentClientIsClosed(setup: Setup, events: seq<Event>, i: nat, fd: int, a: int, g: int, now: int)
    requires GoodEvents(events) && i <= |events| && setup.startedAt <= a
    requires forall e :: e in events[..i] ==> NotAfter(e, a)
    requires 0 <= g <= setup.h && 0 < setup.h && QuietSince(setup, events, i, fd, g)
    requires now - Run(setup, events).lastSweep <= g
    ensures now >= a + 2 * setup.h + 2 * g ==> !MemberOn(Run(setup, events).slots, fd)
    ensures now >= a + 2 * setup.h + 2 * g && now >= a + WS_JOIN_TIMEOUT_S + g ==>
              !AnyOpen(Run(setup, events).slots, fd)
  {
    RunUntil(setup, events[..i], a);
    DoomedThroughout(setup, events, i, fd, a, g);
  }
}
