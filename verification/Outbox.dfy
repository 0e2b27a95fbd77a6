/**
 The browser's outgoing messages: sent at once on a joined open socket, otherwise queued, and
 flushed when a join is confirmed. Messages are named by their composition order.
 */
module Outbox {
  import opened ChatTypes

  const MAX_OUTBOX_MESSAGES := 30

  datatype Socket = NoSocket | Connecting | Open | Closing | Closed

  /**
   What the script holds, together with what the outside sees: `sent` lists the messages handed
   to sockets in that order, `stored` and `storedUser` are the queue and the user id in local storage,
   `dropped` is what the cap cut off. `senders` and `valid` record who composed each message and
   whether it passes the check that a stored queue must pass.
   */
  datatype Tab = Tab(
    userId: nat,
    storedUser: Option<nat>,
    ws: Socket,
    wsJoined: bool,
    outbox: seq<nat>,
    stored: seq<nat>,
    lastSaveOk: bool,
    composed: nat,
    senders: seq<nat>,
    valid: seq<bool>,
    sent: seq<nat>,
    dropped: set<nat>)

  /** Before the first page: empty storage. */
  const EMPTY := Tab(0, None, NoSocket, false, [], [], true, 0, [], [], [], {})

  function Members(s: seq<nat>): set<nat> {
    set m | m in s
  }

  /** The newest messages the cap keeps. */
  function Newest(queue: seq<nat>): (r: seq<nat>)
    ensures |r| <= MAX_OUTBOX_MESSAGES
  {
    if |queue| <= MAX_OUTBOX_MESSAGES then queue else queue[|queue| - MAX_OUTBOX_MESSAGES..]
  }

  function SaveOutbox(t: Tab, saved: bool): Tab {
    var kept := Newest(t.outbox);
    t.(outbox := kept,
       stored := if saved then kept else t.stored,
       lastSaveOk := saved,
       dropped := t.dropped + (Members(t.outbox) - Members(kept)))
  }

  function Release(t: Tab): Tab {
    if t.ws.NoSocket? then t else t.(ws := NoSocket, wsJoined := false)
  }

  /** `throws` says whether the socket's own send call throws, which retires the socket. */
  function SendRaw(t: Tab, message: nat, throws: bool): (Tab, bool) {
    if !t.ws.Open? then (t, false)
    else if throws then (Release(t), false)
    else (t.(sent := t.sent + [message]), true)
  }

  function QueueMessage(t: Tab, message: nat, saved: bool): Tab {
    SaveOutbox(t.(outbox := t.outbox + [message]), saved)
  }

  function SendMessage(t: Tab, valid: bool, throws: bool, saved: bool): Tab {
    var message := t.composed;
    var t1 := t.(composed := t.composed + 1, senders := t.senders + [t.userId], valid := t.valid + [valid]);
    if !t.wsJoined then QueueMessage(t1, message, saved)
    else
      var (t2, ok) := SendRaw(t1, message, throws);
      if ok then t2 else QueueMessage(t2, message, saved)
  }

  /** How many messages at the front of the queue go out before one throws. */
  function SendableCount(pending: seq<nat>, fails: set<nat>): (n: nat)
    ensures n <= |pending|
    ensures forall k :: 0 <= k < n ==> pending[k] !in fails
    ensures n < |pending| ==> pending[n] in fails
  {
    if pending == [] || pending[0] in fails then 0 else 1 + SendableCount(pending[1..], fails)
  }

  function FlushOutbox(t: Tab, fails: set<nat>, saved: bool): Tab {
    if !t.wsJoined || !t.ws.Open? || t.outbox == [] then t
    else
      var n := SendableCount(t.outbox, fails);
      var t1 := t.(sent := t.sent + t.outbox[..n]);
      var t2 := if n < |t.outbox| then Release(t1) else t1;
      SaveOutbox(t2.(outbox := t.outbox[n..]), saved)
  }

  function ConfirmSocketJoin(t: Tab, fails: set<nat>, saved: bool): Tab {
    if t.wsJoined || !t.ws.Open? then t
    else FlushOutbox(t.(wsJoined := true), fails, saved)
  }

  // ---- Loading the page ----

  /** Whether a page of `user` takes a message over from storage. */
  predicate Passes(t: Tab, m: nat, user: nat) {
    m < |t.valid| && m < |t.senders| && t.valid[m] && t.senders[m] == user
  }

  function Kept(t: Tab, queue: seq<nat>, user: nat): seq<nat> {
    if queue == [] then []
    else
      var last := queue[|queue| - 1];
      Kept(t, queue[..|queue| - 1], user) + if Passes(t, last, user) then [last] else []
  }

  /**
   What the outside decides about the start of a page: the user id it generates if it has to and whether
   that is stored, and which reads of storage succeed (a queue that cannot be parsed counts as unread).
   */
  datatype Load = Load(generated: nat, userSaved: bool, readUser: bool, readQueue: bool)

  predicate FindsUser(t: Tab, load: Load) {
    load.readUser && t.storedUser.Some?
  }

  /** The stored user id, or a newly generated one. */
  function LoadedUser(t: Tab, load: Load): nat {
    if FindsUser(t, load) then t.storedUser.value else load.generated
  }

  function LoadedQueue(t: Tab, load: Load): seq<nat> {
    if load.readQueue then Kept(t, t.stored, LoadedUser(t, load)) else []
  }

  /** The start of a page. */
  function LoadPage(t: Tab, load: Load): Tab {
    t.(userId := LoadedUser(t, load),
       storedUser := if !FindsUser(t, load) && load.userSaved then Some(load.generated) else t.storedUser,
       ws := NoSocket, wsJoined := false,
       outbox := LoadedQueue(t, load))
  }

  /** The part of the script's globals that these functions share. */
  class Page {
    var userId: nat
    var storedUser: Option<nat>
    var ws: Socket
    var wsJoined: bool
    var outbox: seq<nat>
    var stored: seq<nat>
    var lastSaveOk: bool
    var composed: nat
    var senders: seq<nat>
    var valid: seq<bool>
    var sent: seq<nat>
    var dropped: set<nat>

    function State(): Tab
      reads this
    {
      Tab(userId, storedUser, ws, wsJoined, outbox, stored, lastSaveOk, composed, senders, valid, sent, dropped)
    }

    constructor (load: Load)
      ensures State() == LoadPage(EMPTY, load)
    {
      userId, storedUser, ws, wsJoined, outbox, stored, lastSaveOk := 0, None, NoSocket, false, [], [], true;
      composed, senders, valid, sent, dropped := 0, [], [], [], {};
      new;
      Load(load);
    }

    method Load(load: Load)
      modifies this
      ensures State() == LoadPage(old(State()), load)
    {
      ghost var before := State();
      if load.readUser && storedUser.Some? {
        userId := storedUser.value;
      } else {
        userId := load.generated;
        if load.userSaved {
          storedUser := Some(userId);
        }
      }
      var queue := [];
      if load.readQueue {
        for i := 0 to |stored|
          invariant queue == Kept(before, stored[..i], userId)
        {
          assert stored[..i + 1][..i] == stored[..i];
          if Passes(State(), stored[i], userId) {
            queue := queue + [stored[i]];
          }
        }
        assert stored[..|stored|] == stored;
      }
      ws, wsJoined, outbox := NoSocket, false, queue;
    }

    method Save(saved: bool)
      modifies this
      ensures State() == SaveOutbox(old(State()), saved)
    {
      var start := if |outbox| > MAX_OUTBOX_MESSAGES then |outbox| - MAX_OUTBOX_MESSAGES else 0;
      dropped := dropped + (Members(outbox) - Members(outbox[start..]));
      outbox := outbox[start..];
      if saved {
        stored := outbox;
      }
      lastSaveOk := saved;
    }

    method ReleaseSocket()
      modifies this
      ensures State() == Release(old(State()))
    {
      if ws.NoSocket? {
        return;
      }
      ws := NoSocket;
      wsJoined := false;
    }

    method Transmit(message: nat, throws: bool) returns (ok: bool)
      modifies this
      ensures (State(), ok) == SendRaw(old(State()), message, throws)
    {
      if !ws.Open? {
        return false;
      }
      if !throws {
        sent := sent + [message];
        return true;
      }
      ReleaseSocket();
      return false;
    }

    method Queue(message: nat, saved: bool)
      modifies this
      ensures State() == QueueMessage(old(State()), message, saved)
    {
      outbox := outbox + [message];
      Save(saved);
    }

    method Compose(passes: bool, throws: bool, saved: bool)
      modifies this
      ensures State() == SendMessage(old(State()), passes, throws, saved)
    {
      ghost var before := State();
      var message := composed;
      composed, senders, valid := composed + 1, senders + [userId], valid + [passes];
      assert State() == before.(composed := composed, senders := senders, valid := valid);
      var ok := false;
      if wsJoined {
        ok := Transmit(message, throws);
      }
      if !wsJoined || !ok {
        Queue(message, saved);
      }
    }

    method Flush(fails: set<nat>, saved: bool)
      modifies this
      ensures State() == FlushOutbox(old(State()), fails, saved)
    {
      if !wsJoined || !ws.Open? || |outbox| == 0 {
        return;
      }
      var pending := outbox;
      ghost var before := State();
      ghost var n := SendableCount(pending, fails);
      var count := 0;
      while count < |pending|
        invariant 0 <= count <= n
        invariant State() == before.(sent := before.sent + pending[..count])
      {
        var ok := Transmit(pending[count], pending[count] in fails);
        if !ok {
          break;
        }
        assert pending[..count + 1] == pending[..count] + [pending[count]];
        count := count + 1;
      }
      assert count == n;
      assert State() == (if n < |pending| then Release(before.(sent := before.sent + pending[..n]))
                         else before.(sent := before.sent + pending[..n]));
      outbox := pending[count..];
      Save(saved);
    }

    method Confirm(fails: set<nat>, saved: bool)
      modifies this
      ensures State() == ConfirmSocketJoin(old(State()), fails, saved)
    {
      if wsJoined || !ws.Open? {
        return;
      }
      wsJoined := true;
      Flush(fails, saved);
    }
  }

  // ---- Runs ----

  datatype Event =
    | Composes(valid: bool, throws: bool, saved: bool)
    | Connects                              // a new socket, when there is none worth keeping
    | ConnectFails                          // the socket constructor throws
    | Opens(joinThrows: bool)               // the handshake is done and the join is sent
    | Presence(fails: set<nat>, saved: bool) // the server's user list confirms the join
    | Controls(throws: bool)                // a pong or another control message
    | Replaced                              // another session took over
    | Drops(ready: Socket)                  // the socket starts to close or is closed
    | Retires                               // its close event, or a timeout, releases it
    | Reloads(load: Load)                   // the page is loaded again from storage

  function Step(t: Tab, e: Event): Tab {
    match e
    case Composes(valid, throws, saved) => SendMessage(t, valid, throws, saved)
    case Connects => if t.ws.Open? || t.ws.Connecting? then t else t.(ws := Connecting)
    case ConnectFails => if t.ws.Open? || t.ws.Connecting? then t else t.(ws := NoSocket)
    case Opens(joinThrows) =>
      if !t.ws.Connecting? then t
      else if joinThrows then Release(t.(ws := Open, wsJoined := false))
      else t.(ws := Open, wsJoined := false)
    case Presence(fails, saved) => ConfirmSocketJoin(t, fails, saved)
    case Controls(throws) => if t.ws.Open? && throws then Release(t) else t
    case Replaced => t.(wsJoined := false)
    case Drops(ready) =>
      if (t.ws.Open? || t.ws.Connecting?) && (ready.Closing? || ready.Closed?) then t.(ws := ready)
      else if t.ws.Closing? && ready.Closed? then t.(ws := Closed)
      else t
    case Retires => Release(t)
    case Reloads(load) => LoadPage(t, load)
  }

  function Run(first: Load, events: seq<Event>): Tab {
    if events == [] then LoadPage(EMPTY, first)
    else Step(Run(first, events[..|events| - 1]), events[|events| - 1])
  }

  /** What a reload takes over from storage is the queue. */
  predicate FindsQueue(t: Tab, load: Load) {
    LoadedQueue(t, load) == t.outbox
  }

  predicate ReloadsFindQueue(first: Load, events: seq<Event>) {
    forall k :: 0 <= k < |events| && events[k].Reloads? ==> FindsQueue(Run(first, events[..k]), events[k].load)
  }

  predicate Ascending(s: seq<nat>) {
    forall i, j :: 0 <= i < j < |s| ==> s[i] < s[j]
  }

  /** The messages sent so far, then the queue, in composition order without repetition. */
  predicate InOrder(sent: seq<nat>, queue: seq<nat>) {
    Ascending(sent) && Ascending(queue) &&
    forall i, j :: 0 <= i < |sent| && 0 <= j < |queue| ==> sent[i] < queue[j]
  }

  /** Every message composed so far is sent, queued or dropped, and only one of these. */
  ghost predicate Accounted(t: Tab) {
    && (forall m: nat :: m < t.composed <==> m in t.sent || m in t.outbox || m in t.dropped)
    && (forall m :: m in t.dropped ==> m !in t.sent && m !in t.outbox)
  }

  ghost predicate Consistent(t: Tab) {
    && (t.wsJoined && t.ws.Open? ==> t.outbox == [])
    && InOrder(t.sent, t.outbox)
    && Accounted(t)
    && |t.outbox| <= MAX_OUTBOX_MESSAGES
    && (t.lastSaveOk ==> t.stored == t.outbox)
    && |t.senders| == |t.valid| == t.composed
  }

  lemma SaveKeepsOrder(t: Tab, saved: bool)
    requires InOrder(t.sent, t.outbox) && Accounted(t) && (t.wsJoined && t.ws.Open? ==> t.outbox == [])
    requires |t.senders| == |t.valid| == t.composed
    ensures Consistent(SaveOutbox(t, saved))
  {
    var after := SaveOutbox(t, saved);
    var kept := Newest(t.outbox);
    assert forall k :: 0 <= k < |kept| ==> kept[k] == t.outbox[|t.outbox| - |kept| + k];
    assert InOrder(t.sent, kept);
    forall m | m in Members(t.outbox) - Members(kept) ensures m !in t.sent && m !in kept {
    }
    assert Accounted(after);
  }

  lemma AppendKeepsOrder(sent: seq<nat>, queue: seq<nat>, m: nat)
    requires InOrder(sent, queue) && forall x :: x in sent || x in queue ==> x < m
    ensures InOrder(sent, queue + [m])
    ensures queue == [] ==> InOrder(sent + [m], [])
  {
    assert forall i :: 0 <= i < |sent| ==> sent[i] in sent;
    assert forall j :: 0 <= j < |queue| ==> queue[j] in queue;
  }

  lemma FlushMovesFront(sent: seq<nat>, queue: seq<nat>, n: nat)
    requires InOrder(sent, queue) && n <= |queue|
    ensures InOrder(sent + queue[..n], queue[n..])
    ensures forall m :: m in sent || m in queue <==> m in sent + queue[..n] || m in queue[n..]
  {
    assert queue == queue[..n] + queue[n..];
  }

  lemma ComposeKeepsOrder(t: Tab, valid: bool, throws: bool, saved: bool)
    requires Consistent(t)
    ensures Consistent(SendMessage(t, valid, throws, saved))
  {
    var m := t.composed;
    var t1 := t.(composed := m + 1, senders := t.senders + [t.userId], valid := t.valid + [valid]);
    assert forall x :: x in t.sent || x in t.outbox ==> x < m;
    AppendKeepsOrder(t.sent, t.outbox, m);
    if t.wsJoined && t.ws.Open? && !throws {
      var after := t1.(sent := t.sent + [m]);
      assert Accounted(after);
    } else {
      var released := if t.wsJoined && t.ws.Open? then Release(t1) else t1;
      var queued := released.(outbox := t.outbox + [m]);
      assert Accounted(queued);
      SaveKeepsOrder(queued, saved);
      assert SendMessage(t, valid, throws, saved) == SaveOutbox(queued, saved);
    }
  }

  lemma FlushKeepsOrder(t: Tab, fails: set<nat>, saved: bool)
    requires Consistent(t)
    ensures Consistent(ConfirmSocketJoin(t, fails, saved))
  {
    if !t.wsJoined && t.ws.Open? && t.outbox != [] {
      var n := SendableCount(t.outbox, fails);
      FlushMovesFront(t.sent, t.outbox, n);
      var t1 := t.(wsJoined := true, sent := t.sent + t.outbox[..n]);
      var t2 := (if n < |t.outbox| then Release(t1) else t1).(outbox := t.outbox[n..]);
      assert Accounted(t2);
      SaveKeepsOrder(t2, saved);
    }
  }

  /**
   Over every run of composing, send failures, reconnects, replaced sessions and reloads that find
   the queue in storage: messages reach sockets in composition order, each at most once; each composed
   message is sent, still queued or dropped by the 30-entry cap; and between events a joined open
   socket implies an empty queue, so nothing can overtake it.
   */
  lemma {:induction false} OutboxOrder(first: Load, events: seq<Event>)
    requires ReloadsFindQueue(first, events)
    ensures Consistent(Run(first, events))
  {
    if events != [] {
      var last := |events| - 1;
      FoundBefore(first, events);
      OutboxOrder(first, events[..last]);
      StepKeepsOrder(Run(first, events[..last]), events[last]);
    }
  }

  lemma FoundBefore(first: Load, events: seq<Event>)
    requires events != [] && ReloadsFindQueue(first, events)
    ensures ReloadsFindQueue(first, events[..|events| - 1])
  {
    var shorter := events[..|events| - 1];
    assert forall k :: 0 <= k <= |shorter| ==> shorter[..k] == events[..k];
  }

  /** Steps that touch only the socket, and a reload that brings the queue back. */
  lemma SocketStepKeepsOrder(t: Tab, t': Tab)
    requires Consistent(t)
    requires t' == t.(ws := t'.ws, wsJoined := t'.wsJoined, userId := t'.userId, storedUser := t'.storedUser)
    requires t'.wsJoined && t'.ws.Open? ==> t.wsJoined && t.ws.Open?
    ensures Consistent(t')
  {
  }

  lemma StepKeepsOrder(t: Tab, e: Event)
    requires Consistent(t) && (e.Reloads? ==> FindsQueue(t, e.load))
    ensures Consistent(Step(t, e))
  {
    match e {
      case Composes(valid, throws, saved) => ComposeKeepsOrder(t, valid, throws, saved);
      case Presence(fails, saved) => FlushKeepsOrder(t, fails, saved);
      case _ => SocketStepKeepsOrder(t, Step(t, e));
    }
  }

  lemma RunSnoc(first: Load, events: seq<Event>, e: Event)
    ensures Run(first, events + [e]) == Step(Run(first, events), e)
  {
    assert (events + [e])[..|events|] == events;
  }

  function AllButLast(s: seq<nat>): seq<nat>
    requires s != []
  {
    s[..|s| - 1]
  }

  /** The last of an ascending sequence is its greatest member, and is not among the others. */
  lemma LastIsGreatest(s: seq<nat>)
    requires s != [] && Ascending(s)
    ensures Ascending(AllButLast(s)) && s == AllButLast(s) + [s[|s| - 1]]
    ensures forall m :: m in s ==> m <= s[|s| - 1]
    ensures forall m :: m in AllButLast(s) <==> m in s && m != s[|s| - 1]
  {
  }

  lemma EmptyHasNoMember(s: seq<nat>)
    ensures s == [] <==> forall m :: m !in s
  {
    if s != [] {
      assert s[0] in s;
    }
  }

  lemma {:induction false} AscendingIsUnique(a: seq<nat>, b: seq<nat>)
    requires Ascending(a) && Ascending(b) && forall m :: m in a <==> m in b
    ensures a == b
  {
    EmptyHasNoMember(a);
    EmptyHasNoMember(b);
    if a != [] {
      LastIsGreatest(a);
      LastIsGreatest(b);
      assert a[|a| - 1] in b && b[|b| - 1] in a;
      AscendingIsUnique(AllButLast(a), AllButLast(b));
    }
  }

  /** On a joined open socket that does not throw, a composed message goes out at once; queue and socket stay. */
  lemma ComposedIsSent(t: Tab, valid: bool, saved: bool)
    requires t.wsJoined && t.ws.Open?
    ensures var after := SendMessage(t, valid, false, saved);
            && after.sent == t.sent + [t.composed] && after.outbox == t.outbox && after.stored == t.stored
            && after.ws == t.ws && after.wsJoined
  {
  }

  /** Otherwise it joins the end of the queue, of which the newest 30 stay, and a throwing socket is released. */
  lemma ComposedIsQueued(t: Tab, valid: bool, throws: bool, saved: bool)
    requires !t.wsJoined || !t.ws.Open? || throws
    ensures var after, queue := SendMessage(t, valid, throws, saved), t.outbox + [t.composed];
            && after.sent == t.sent && after.composed == t.composed + 1
            && after.outbox == Newest(queue) && (|queue| <= 30 ==> after.outbox == queue)
            && (saved ==> after.stored == after.outbox) && (!saved ==> after.stored == t.stored)
            && (t.wsJoined && t.ws.Open? ==> after.ws.NoSocket? && !after.wsJoined)
            && (!t.wsJoined || !t.ws.Open? ==> after.ws == t.ws && after.wsJoined == t.wsJoined)
  {
  }

  /** A confirmed join sends the queue in order, all of it if no send throws, else up to the first that does. */
  lemma JoinFlushes(t: Tab, fails: set<nat>, saved: bool, n: nat)
    requires t.ws.Open? && !t.wsJoined && t.outbox != [] && |t.outbox| <= MAX_OUTBOX_MESSAGES
    requires n <= |t.outbox| && (forall k :: 0 <= k < n ==> t.outbox[k] !in fails)
    requires n < |t.outbox| ==> t.outbox[n] in fails
    ensures var after := ConfirmSocketJoin(t, fails, saved);
            && after.sent == t.sent + t.outbox[..n] && after.outbox == t.outbox[n..]
            && (saved ==> after.stored == after.outbox) && (!saved ==> after.stored == t.stored)
            && (n == |t.outbox| ==> after.ws == t.ws && after.wsJoined)
            && (n < |t.outbox| ==> after.ws.NoSocket? && !after.wsJoined)
  {
    var m := SendableCount(t.outbox, fails);
    assert m == n;
  }

  lemma UnsavedFlush(t: Tab)
    requires t.ws.Open? && !t.wsJoined && t.outbox != []
    ensures var after := ConfirmSocketJoin(t, {}, false);
            after.sent == t.sent + t.outbox && after.stored == t.stored && !after.lastSaveOk
  {
    var n := SendableCount(t.outbox, {});
    assert n == |t.outbox|;
    assert t.outbox[..n] == t.outbox;
  }

  /**
   A flush whose write fails leaves the old queue in storage, so a reload that keeps it queues again
   every message that has just gone out.
   */
  lemma ReloadAfterFailedSaveResends(t: Tab, load: Load)
    requires t.ws.Open? && !t.wsJoined && t.outbox != [] && t.stored == t.outbox && FindsQueue(t, load)
    ensures var after := Step(Step(t, Presence({}, false)), Reloads(load));
            after.outbox == t.outbox && forall m :: m in after.outbox ==> m in after.sent
  {
    UnsavedFlush(t);
    var flushed := Step(t, Presence({}, false));
    KeptDependsOnRecord(t, flushed, t.stored, LoadedUser(t, load));
  }

  lemma {:induction false} KeptDependsOnRecord(t: Tab, t': Tab, queue: seq<nat>, user: nat)
    requires t.senders == t'.senders && t.valid == t'.valid
    ensures Kept(t, queue, user) == Kept(t', queue, user)
  {
    if queue != [] {
      KeptDependsOnRecord(t, t', queue[..|queue| - 1], user);
    }
  }

  /**
   Exactly when a reload keeps the guarantees: when what the new page reads of the queue and takes over
   from it is the queue.
   */
  lemma ReloadKeepsOrderExactly(t: Tab, load: Load)
    requires Consistent(t)
    ensures Consistent(Step(t, Reloads(load))) <==> FindsQueue(t, load)
  {
    var after := Step(t, Reloads(load));
    if FindsQueue(t, load) {
      SocketStepKeepsOrder(t, after);
    } else if Consistent(after) {
      SameQueue(t, after);
      assert false;
    }
  }

  lemma {:induction false} KeptAll(t: Tab, queue: seq<nat>, user: nat)
    ensures |Kept(t, queue, user)| <= |queue|
    ensures Kept(t, queue, user) == queue <==> forall m :: m in queue ==> Passes(t, m, user)
  {
    if queue != [] {
      var front, last := queue[..|queue| - 1], queue[|queue| - 1];
      KeptAll(t, front, user);
      assert queue == front + [last];
    }
  }

  /** Of the stored queue, if it can be read, a page takes over what is valid and its user's own, in order. */
  lemma ReloadTakesOverExactly(t: Tab, load: Load)
    ensures var after := Step(t, Reloads(load));
            && (forall m :: m in after.outbox <==>
                              && load.readQueue && m in t.stored && m < |t.valid| && m < |t.senders|
                              && t.valid[m] && t.senders[m] == after.userId)
            && (Ascending(t.stored) ==> Ascending(after.outbox))
  {
    KeptExactly(t, t.stored, LoadedUser(t, load));
  }

  lemma {:induction false} KeptExactly(t: Tab, queue: seq<nat>, user: nat)
    ensures forall m :: m in Kept(t, queue, user) <==> m in queue && Passes(t, m, user)
    ensures Ascending(queue) ==> Ascending(Kept(t, queue, user))
  {
    if queue != [] {
      KeptExactly(t, queue[..|queue| - 1], user);
      var front, last := queue[..|queue| - 1], queue[|queue| - 1];
      assert queue == front + [last];
      forall i | 0 <= i < |Kept(t, front, user)| && Ascending(queue) ensures Kept(t, front, user)[i] < last {
        assert Kept(t, front, user)[i] in front;
      }
    }
  }

  /**
   After a successful write of the queue the reload keeps the guarantees exactly if the queue is empty,
   or can be read and every message in it is valid and was composed under the user id of the new page.
   */
  lemma ReloadAfterGoodSaveExactly(t: Tab, load: Load)
    requires Consistent(t) && t.lastSaveOk
    ensures Consistent(Step(t, Reloads(load))) <==>
            t.outbox == [] ||
            (load.readQueue && forall m :: m in t.outbox ==>
                                             && m < |t.valid| && m < |t.senders| && t.valid[m]
                                             && t.senders[m] == Step(t, Reloads(load)).userId)
  {
    ReloadKeepsOrderExactly(t, load);
    KeptAll(t, t.stored, LoadedUser(t, load));
  }

  /** A user id that cannot be read is replaced, and its successor takes over nothing of the queue. */
  lemma UnreadUserIdLosesQueue(t: Tab, load: Load)
    requires Consistent(t) && t.lastSaveOk && t.outbox != [] && !load.readUser
    requires forall m :: m in t.outbox ==> t.senders[m] != load.generated
    ensures Step(t, Reloads(load)).outbox == [] && !Consistent(Step(t, Reloads(load)))
  {
    NoneKept(t, t.stored, load.generated);
    ReloadKeepsOrderExactly(t, load);
  }

  lemma {:induction false} NoneKept(t: Tab, queue: seq<nat>, user: nat)
    requires forall m :: m in queue ==> !Passes(t, m, user)
    ensures Kept(t, queue, user) == []
  {
    if queue != [] {
      NoneKept(t, queue[..|queue| - 1], user);
    }
  }

  lemma SameQueue(t: Tab, t': Tab)
    requires Consistent(t) && Consistent(t')
    requires t'.sent == t.sent && t'.dropped == t.dropped && t'.composed == t.composed
    ensures t'.outbox == t.outbox
  {
    forall m ensures m in t.outbox <==> m in t'.outbox {
      OnlyOnce(t, m);
      OnlyOnce(t', m);
    }
    AscendingIsUnique(t.outbox, t'.outbox);
  }

  lemma OnlyOnce(t: Tab, m: nat)
    requires Consistent(t)
    ensures m in t.outbox <==> m < t.composed && m !in t.sent && m !in t.dropped
  {
    assert m in t.sent ==> exists i :: 0 <= i < |t.sent| && t.sent[i] == m;
    assert m in t.outbox ==> exists j :: 0 <= j < |t.outbox| && t.outbox[j] == m;
  }

  /** The first page, on which the generated user id is stored or not. */
  function FirstLoad(user: nat, saved: bool): Load {
    Load(user, saved, true, true)
  }

  /** One message composed on the first page, before any connection. */
  lemma FirstMessageQueued(first: Load)
    ensures var t := Run(first, [Composes(true, false, true)]);
            && t == LoadPage(EMPTY, first).(outbox := [0], stored := [0], composed := 1,
                                            senders := [first.generated], valid := [true])
            && Kept(t, [0], first.generated) == [0]
            && forall user :: user != first.generated ==> Kept(t, [0], user) == []
  {
    assert [] + [Composes(true, false, true)] == [Composes(true, false, true)];
    RunSnoc(first, [], Composes(true, false, true));
    var t := Run(first, [Composes(true, false, true)]);
    assert [0][..0] == [];
    KeptAll(t, [0], first.generated);
  }

  /** A run that gets there. */
  lemma UnsavedFlushReachable(user: nat, load: Load)
    requires load.readUser && load.readQueue
    ensures var t := Run(FirstLoad(user, true), [Composes(true, false, true)] + [Connects] + [Opens(false)]);
            t.ws.Open? && !t.wsJoined && t.outbox == t.stored == [0] && FindsQueue(t, load)
  {
    var first := FirstLoad(user, true);
    FirstMessageQueued(first);
    RunSnoc(first, [Composes(true, false, true)], Connects);
    RunSnoc(first, [Composes(true, false, true)] + [Connects], Opens(false));
    var t := Run(first, [Composes(true, false, true)]);
    KeptDependsOnRecord(t, t.(ws := Open), [0], user);
  }

  /**
   Storing the queue and reading it is not enough. If the user id of the first page could not be stored,
   the next page generates another one and takes no message of the stored queue over: it is lost.
   */
  lemma LostUserIdLosesQueue(user: nat, other: nat)
    requires user != other
    ensures var first, next := FirstLoad(user, false), FirstLoad(other, true);
            var t, after := Run(first, [Composes(true, false, true)]),
                            Run(first, [Composes(true, false, true)] + [Reloads(next)]);
            && t.lastSaveOk && t.stored == t.outbox == [0]
            && after.outbox == [] && 0 !in after.sent && 0 !in after.dropped
  {
    FirstMessageQueued(FirstLoad(user, false));
    RunSnoc(FirstLoad(user, false), [Composes(true, false, true)], Reloads(FirstLoad(other, true)));
  }
}
