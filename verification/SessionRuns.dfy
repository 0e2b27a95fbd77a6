/** Runs of the HTTP task: handshakes, frames, close callbacks and sweeps in any order, with any send failing. */
module SessionRuns {
  import opened ChatTypes
  import opened SessionTable
  import opened SessionFacts
  import opened SessionSteps

  datatype Event =
    | Handshakes(fd: int, now: int)
    | FrameArrives(fd: int, frame: Frame, now: int, later: int)
    | Closes(fd: int)
    | Sweeps(now: int)

  /** The number of slots, the uptime when the heartbeat starts, its interval, and the outcome of every send. */
  datatype Setup = Setup(size: nat, startedAt: int, h: int, net: Net)

  /** A slot of zeroed memory. */
  const ZERO := Slot(0, false, false, false, false, false, 0, 0, 0, [], [])

  function Start(setup: Setup): World {
    World(seq(setup.size, i => ZERO), setup.startedAt, map[], [], [])
  }

  function Step(w: World, e: Event, setup: Setup): World {
    match e
    case Handshakes(fd, now) => Admit(w, fd, now).0
    case FrameArrives(fd, frame, now, later) => HandleFrame(w, fd, frame, now, later, setup.net)
    case Closes(fd) => SessionClosed(w, fd, setup.net)
    case Sweeps(now) => Sweep(w, now, setup.h, setup.net)
  }

  function Run(setup: Setup, events: seq<Event>): World {
    if events == [] then Start(setup)
    else Step(Run(setup, events[..|events| - 1]), events[|events| - 1], setup)
  }

  /** Descriptors are not negative, and the parser lets no empty user id through. */
  predicate GoodEvent(e: Event) {
    && (e.Handshakes? || e.FrameArrives? ==> e.fd >= 0)
    && (e.FrameArrives? ==> GoodFrame(e.frame))
  }

  predicate GoodEvents(events: seq<Event>) {
    forall e :: e in events ==> GoodEvent(e)
  }

  // ---- What a frame and a handshake do ----

  /** Joined slots without a sign of life were so before, and are not on `fd`. */
  predicate DeadElsewhere(s: seq<Slot>, t: seq<Slot>, fd: int) {
    |s| == |t| && forall i :: 0 <= i < |s| && Member(t[i]) && !t[i].isAlive ==>
      Member(s[i]) && !s[i].isAlive && t[i].fd == s[i].fd && t[i].lastPing == s[i].lastPing && t[i].fd != fd
  }

  /** A slot's times stay, or one of two clock readings sets both. */
  predicate KeepsTimes(s: seq<Slot>, t: seq<Slot>, now: int, later: int) {
    |s| == |t| && forall i :: 0 <= i < |s| && t[i].active ==>
      || (s[i].active && t[i].lastPing == s[i].lastPing && t[i].registeredAt == s[i].registeredAt)
      || t[i].lastPing == t[i].registeredAt == now
      || t[i].lastPing == t[i].registeredAt == later
  }

  predicate Handled(w: World, w': World, fd: int, now: int, later: int) {
    && w'.lastSweep == w.lastSweep && w'.trace == w.trace + [Traffic(fd, now)] && w.sent <= w'.sent
    && OthersOnlyClose(w.slots, w'.slots, fd)
    && KeepsIdentities(w.slots, w'.slots)
    && DeadElsewhere(w.slots, w'.slots, fd)
    && KeepsTimes(w.slots, w'.slots, now, later)
  }

  lemma AdmitHandles(w: World, fd: int, now: int)
    requires Good(w) && fd >= 0 && Admit(w, fd, now).1
    ensures var w' := Admit(w, fd, now).0; Good(w') && Handled(w, w', fd, now, now) && AnyOpen(w'.slots, fd)
  {
    AdmitGood(w, fd, now);
  }

  lemma OthersTrans(a: seq<Slot>, b: seq<Slot>, c: seq<Slot>, fd: int)
    requires OthersOnlyClose(a, b, fd) && OthersOnlyClose(b, c, fd)
    ensures OthersOnlyClose(a, c, fd)
  {
    forall i | 0 <= i < |a| ensures CloseSlot(CloseSlot(a[i])) == CloseSlot(a[i]) {
    }
  }

  lemma IdentitiesTrans(a: seq<Slot>, b: seq<Slot>, c: seq<Slot>)
    requires KeepsIdentities(a, b) && KeepsIdentities(b, c)
    ensures KeepsIdentities(a, c)
  {
    forall i | 0 <= i < |a| ensures KeepsIdentity(a[i], c[i]) {
      assert KeepsIdentity(a[i], b[i]) && KeepsIdentity(b[i], c[i]);
    }
  }

  lemma FrameHandles(w: World, fd: int, frame: Frame, now: int, later: int, net: Net)
    requires Good(w) && fd >= 0 && GoodFrame(frame) && Admit(w, fd, now).1
    ensures var w' := HandleFrame(w, fd, frame, now, later, net); Good(w') && Handled(w, w', fd, now, later)
  {
    AdmitHandles(w, fd, now);
    var w1 := Admit(w, fd, now).0;
    DispatchGood(w1, fd, frame, later, net);
    var w' := Dispatch(w1, fd, frame, later, net);
    OthersTrans(w.slots, w1.slots, w'.slots, fd);
    IdentitiesTrans(w.slots, w1.slots, w'.slots);
  }

  /** A rejected connection changes nothing. */
  lemma RejectionIsSilent(w: World, e: Event, setup: Setup)
    requires (e.Handshakes? || e.FrameArrives?) && !Admit(w, e.fd, e.now).1
    ensures Step(w, e, setup) == w
  {
  }

  /** The last clock reading of a handshake or frame. */
  function Later(e: Event): int
    requires e.Handshakes? || e.FrameArrives?
  {
    if e.Handshakes? then e.now else e.later
  }

  lemma TrafficHandles(w: World, e: Event, setup: Setup)
    requires Good(w) && GoodEvent(e) && (e.Handshakes? || e.FrameArrives?)
    ensures Good(Step(w, e, setup))
    ensures Step(w, e, setup) == w || Handled(w, Step(w, e, setup), e.fd, e.now, Later(e))
  {
    if !Admit(w, e.fd, e.now).1 {
      RejectionIsSilent(w, e, setup);
    } else if e.Handshakes? {
      AdmitHandles(w, e.fd, e.now);
    } else {
      FrameHandles(w, e.fd, e.frame, e.now, e.later, setup.net);
    }
  }

  // ---- The table and presence, over every run ----

  lemma StepIsGood(w: World, e: Event, setup: Setup)
    requires Good(w) && GoodEvent(e)
    ensures Good(Step(w, e, setup))
  {
    match e
    case Closes(fd) => SessionClosedGood(w, fd, setup.net);
    case Sweeps(now) => SweepGood(w, now, setup.h, setup.net);
    case _ => TrafficHandles(w, e, setup);
  }

  lemma {:induction false} RunIsGood(setup: Setup, events: seq<Event>)
    requires GoodEvents(events)
    ensures Good(Run(setup, events)) && |Run(setup, events).slots| == setup.size
  {
    if events != [] {
      RunIsGood(setup, events[..|events| - 1]);
      StepIsGood(Run(setup, events[..|events| - 1]), events[|events| - 1], setup);
      StepKeepsSize(Run(setup, events[..|events| - 1]), events[|events| - 1], setup);
    }
  }

  lemma StepKeepsSize(w: World, e: Event, setup: Setup)
    requires Good(w) && GoodEvent(e)
    ensures |Step(w, e, setup).slots| == |w.slots|
  {
    match e
    case Closes(fd) => SessionClosedGood(w, fd, setup.net);
    case Sweeps(now) => SweepGood(w, now, setup.h, setup.net);
    case _ => TrafficHandles(w, e, setup);
  }

  function SlotsOn(slots: seq<Slot>, fd: int): set<nat> {
    set i | 0 <= i < |slots| && On(slots[i], fd)
  }

  /**
   In every run each connection has at most one slot and each user at most one joined slot, and a
   slot is joined exactly when it holds a user id. So the close callback never removes two slots.
   */
  lemma TableHoldsAlways(setup: Setup, events: seq<Event>, fd: int)
    requires GoodEvents(events)
    ensures TableOk(Run(setup, events).slots)
    ensures |SlotsOn(Run(setup, events).slots, fd)| <= 1
  {
    RunIsGood(setup, events);
    var slots := Run(setup, events).slots;
    var on := SlotsOn(slots, fd);
    if i :| i in on {
      forall j | j in on ensures j == i {
        assert slots[j].fd == slots[i].fd;
      }
      assert on == {i};
    }
  }

  /**
   After every step of every run either some connection is still closing, or each joined connection
   was last told who is joined: an id with a name is in its list exactly if a joined slot has that id,
   and that name or none and the name is the default one. The list is in slot order, without repetition.
   */
  lemma PresenceHoldsAlways(setup: Setup, events: seq<Event>, i: nat)
    requires GoodEvents(events) && i < setup.size && |Run(setup, events).slots| == setup.size
    requires forall j :: 0 <= j < setup.size && Run(setup, events).slots[j].active ==>
                           !Run(setup, events).slots[j].closing
    requires Run(setup, events).slots[i].active && Run(setup, events).slots[i].joined
    ensures var w := Run(setup, events);
            && w.slots[i].fd in w.delivered
            && var list := w.delivered[w.slots[i].fd];
               && (forall entry :: entry in list <==> exists j :: 0 <= j < setup.size && Shows(entry, w.slots[j]))
               && (forall j, k :: 0 <= j < k < |list| ==> list[j].0 != list[k].0)
               && ListsJoined(list, w.slots)
  {
    RunIsGood(setup, events);
    var w := Run(setup, events);
    assert !AnyClosing(w.slots) && Member(w.slots[i]);
    var at := RosterLists(w.slots);
    ListedExactly(RosterOf(w.slots), w.slots);
  }

  /** A join always finds the slot its connection was given, so it cannot fail for want of one. */
  lemma JoinFindsItsSlot(setup: Setup, events: seq<Event>, fd: int, user: Text, name: Text, now: int, later: int)
    requires GoodEvents(events) && fd >= 0 && user != []
    requires Admit(Run(setup, events), fd, now).1
    ensures var w := Admit(Run(setup, events), fd, now).0;
            && 0 <= LastOpen(w.slots, |w.slots|, fd)
            && UpdateIdentity(w, fd, user, name, later, setup.net).1
  {
    RunIsGood(setup, events);
    AdmitHandles(Run(setup, events), fd, now);
    var w := Admit(Run(setup, events), fd, now).0;
    LastOpenFinds(w.slots, |w.slots|, fd);
    UpdateIdentityJoins(w, fd, user, name, later, setup.net);
  }

  // ---- Identities ----

  predicate KeepsIdentityOn(s: seq<Slot>, t: seq<Slot>, fd: int) {
    |s| == |t| && forall i :: 0 <= i < |s| && On(s[i], fd) ==> KeepsIdentity(s[i], t[i])
  }

  lemma StepKeepsIdentity(w: World, e: Event, setup: Setup, fd: int)
    requires Good(w) && GoodEvent(e) && e != Closes(fd)
    ensures KeepsIdentityOn(w.slots, Step(w, e, setup).slots, fd)
  {
    StepKeepsSize(w, e, setup);
    match e
    case Closes(other) => SessionClosedGood(w, other, setup.net);
    case Sweeps(now) => SweepGood(w, now, setup.h, setup.net);
    case _ => TrafficHandles(w, e, setup);
  }

  /**
   Until its close callback a connection keeps its slot; once closing it stays closing, and once
   joined it keeps its user id until it closes.
   */
  lemma {:induction false} IdentityIsStable(setup: Setup, events: seq<Event>, i: nat, fd: int)
    requires GoodEvents(events) && i <= |events|
    requires forall k :: i <= k < |events| ==> events[k] != Closes(fd)
    ensures KeepsIdentityOn(Run(setup, events[..i]).slots, Run(setup, events).slots, fd)
  {
    RunIsGood(setup, events[..i]);
    if i == |events| {
      assert events[..i] == events;
    } else {
      var shorter := events[..|events| - 1];
      assert shorter[..i] == events[..i];
      RunIsGood(setup, shorter);
      IdentityIsStable(setup, shorter, i, fd);
      StepKeepsIdentity(Run(setup, shorter), events[|events| - 1], setup, fd);
      IdentityOnTrans(Run(setup, events[..i]).slots, Run(setup, shorter).slots, Run(setup, events).slots, fd);
    }
  }

  lemma IdentityOnTrans(a: seq<Slot>, b: seq<Slot>, c: seq<Slot>, fd: int)
    requires KeepsIdentityOn(a, b, fd) && KeepsIdentityOn(b, c, fd)
    ensures KeepsIdentityOn(a, c, fd)
  {
    forall i | 0 <= i < |a| && On(a[i], fd) ensures KeepsIdentity(a[i], c[i]) {
      assert KeepsIdentity(a[i], b[i]) && KeepsIdentity(b[i], c[i]);
    }
  }
}
