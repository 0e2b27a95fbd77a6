/**
 The device and one browser over every run of posts, joins, failed sends, cut connections, power
 cuts, failing flash, failing reads and writes of storage, and page reloads. The connection is a stream in order that
 may be cut at any prefix. A join is one step: it runs on the HTTP task, as does every broadcast.
 */
module EndToEnd {
  import opened Arithmetic
  import opened ChatTypes
  import opened Json
  import opened ChatProtocol
  import opened MessageIdStore
  import opened MessageLog
  import ClientStore
  import DeviceRuns

  datatype Link =
    | Down
    | Opening(since: nat)                    // the join is on its way
    | Up(stream: seq<Message>, live: bool)   // what is in flight; live while the server still sends

  /**
   `delivered` holds the ids of all messages the browser got from the stream, for this user or not;
   `excused` those that had left the ring when the browser joined with a cursor below them; `posted`
   what was published under each id. `owedAbove` is how far the cursors may have been the last time
   that a page could not read the cache, or went by a user id that messages named already.
   */
  datatype System = System(
    device: DeviceRuns.Device,
    page: ClientStore.Session,
    link: Link,
    delivered: set<nat>,
    excused: set<nat>,
    posted: map<nat, Fields>,
    owedAbove: nat)

  datatype Event =
    | Posts(root: Fields, env: StoreEnv, sendOk: bool)
    | Device(e: DeviceRuns.Event)
    | Connects
    | Joins(read: ReadFaults, reload: WriteFaults, sends: nat, synced: bool)
    | Delivers(messagesSaved: bool, cursorSaved: bool)
    | Cuts(arriving: nat)
    | Drops
    | Imports(candidate: Fields, source: ClientStore.Source, restoreBefore: nat, saved: bool)
    | Reloads(load: ClientStore.Load)

  datatype Setup = Setup(start: DeviceRuns.Start, limits: Limits, first: ClientStore.First)

  // ---- Steps ----

  /** A broadcast of a new message; a failed send closes the connection. */
  function Broadcast(link: Link, m: Message, sendOk: bool): Link {
    if link.Up? && link.live then (if sendOk then Up(link.stream + [m], true) else Up(link.stream, false)) else link
  }

  /** The connection breaks; what has left the server may still arrive, up to some point. */
  function Cut(link: Link, arriving: nat): Link {
    match link
    case Down => Down
    case Opening(_) => Up([], false)
    case Up(stream, _) => Up(stream[..Min(arriving, |stream|)], false)
  }

  function RingIds(buffer: seq<Option<Message>>): set<nat> {
    set i | 0 <= i < |buffer| && buffer[i].Some? :: buffer[i].value.id
  }

  /** The published ids after `since` that the ring no longer holds. */
  function Gone(d: DeviceRuns.Device, since: nat): set<nat> {
    set id | id in d.published && id > since && id !in RingIds(d.log.buffer)
  }

  function Post(s: System, root: Fields, env: StoreEnv, sendOk: bool): (s': System)
    requires s.device.log.head < |s.device.log.buffer|
    ensures s'.device.log.head < |s'.device.log.buffer|
  {
    var result := Store(s.device.log, root, env).1;
    s.(device := DeviceRuns.Step(s.device, DeviceRuns.Stores(root, env)),
       link := if result.Stored? then Broadcast(s.link, result.message, sendOk) else s.link,
       posted := if result.Stored? then s.posted[result.message.id := result.message.payload] else s.posted)
  }

  /** The join handler: the replay, of which `sends` messages go out, then the rest of the synchronization. */
  function Join(s: System, read: ReadFaults, reload: WriteFaults, sends: nat, synced: bool): (s': System)
    requires s.link.Opening? && s.device.log.head < |s.device.log.buffer|
    ensures s'.device.log.head < |s'.device.log.buffer|
  {
    var device := DeviceRuns.Step(s.device, DeviceRuns.Ensures(read, reload));
    if !device.log.counterValid then s.(device := device, link := Cut(s.link, 0))
    else
      var all := Replayed(device.messages, |device.log.buffer|, device.base, s.link.since);
      var n := Min(sends, |all|);
      s.(device := device,
         link := Up(all[..n], n == |all| && synced),
         excused := s.excused + Gone(device, s.link.since))
  }

  function Deliver(s: System, messagesSaved: bool, cursorSaved: bool): System
    requires s.link.Up? && s.link.stream != []
  {
    var m := s.link.stream[0];
    s.(page := ClientStore.Step(s.page, ClientStore.Receives(m.payload, messagesSaved, cursorSaved)),
       link := s.link.(stream := s.link.stream[1..]),
       delivered := s.delivered + {m.id})
  }

  /** Whether a message mentions a user. */
  predicate Names(msg: Fields, user: Text) {
    IsText(Get(msg, "from"), user) ||
    ("to" in msg && msg["to"].Obj? && Contains(Get(msg["to"].fields, "users"), user))
  }

  /** The page reads the cache, and goes by the same user id, or by one that no message names yet. */
  predicate Recalls(s: System, load: ClientStore.Load) {
    var user := ClientStore.LoadedUser(s.page.client, load);
    load.readCache && (user == s.page.client.userId || forall id :: id in s.posted ==> !Names(s.posted[id], user))
  }

  /** The largest cursor that storage gives a page. */
  function StoredReach(c: ClientStore.Client): nat {
    Max(c.storedCursor, ClientStore.MaxId(ClientStore.Live(c.snapshot)))
  }

  function Reload(s: System, load: ClientStore.Load): System {
    s.(page := ClientStore.Step(s.page, ClientStore.Reloads(load)),
       link := Down,
       owedAbove := if Recalls(s, load) then s.owedAbove else Max(s.owedAbove, StoredReach(s.page.client)))
  }

  function Step(s: System, e: Event, limits: Limits): (s': System)
    requires s.device.log.head < |s.device.log.buffer|
    ensures s'.device.log.head < |s'.device.log.buffer|
  {
    match e
    case Posts(root, env, sendOk) =>
      var verdict := ValidateChat(root, limits);
      if verdict.Accept? then Post(s, verdict.root, env, sendOk) else s
    case Device(d) =>
      if d.Stores? then s
      else s.(device := DeviceRuns.Step(s.device, d),
              link := if d.Ensures? || !s.link.Up? then s.link else s.link.(live := false))
    case Connects => s.(link := Opening(s.page.client.lastSeenId))
    case Joins(read, reload, sends, synced) => if s.link.Opening? then Join(s, read, reload, sends, synced) else s
    case Delivers(messagesSaved, cursorSaved) =>
      if s.link.Up? && s.link.stream != [] then Deliver(s, messagesSaved, cursorSaved) else s
    case Cuts(arriving) => s.(link := Cut(s.link, arriving))
    case Drops => s.(link := Down)
    case Imports(candidate, source, restoreBefore, saved) =>
      s.(page := ClientStore.Step(s.page, ClientStore.Imports(candidate, source, restoreBefore, saved)))
    case Reloads(load) => Reload(s, load)
  }

  function Start(setup: Setup): System {
    System(DeviceRuns.FirstBoot(setup.start.size, setup.start.read, setup.start.write),
           ClientStore.Fresh(setup.first), Down, {}, {}, map[], 0)
  }

  function Run(setup: Setup, events: seq<Event>): (s: System)
    requires setup.start.size > 0
    ensures s.device.log.head < |s.device.log.buffer|
  {
    if events == [] then Start(setup)
    else Step(Run(setup, events[..|events| - 1]), events[|events| - 1], setup.limits)
  }

  // ---- Which ids the browser has, and why it may miss some ----

  function PublishedIds(d: DeviceRuns.Device): set<nat> {
    set id | id in d.published
  }

  /** The ids of the messages for a user above some id. */
  ghost function Addressed(posted: map<nat, Fields>, user: Text, above: nat): set<nat> {
    set id | id in posted && id > above && ClientStore.IsFor(posted[id], user)
  }

  /** The messages that the page owes the user. */
  ghost function Wanted(s: System): set<nat> {
    Addressed(s.posted, s.page.client.userId, s.owedAbove)
  }

  predicate Carries(stream: seq<Message>, y: nat) {
    exists i :: 0 <= i < |stream| && stream[i].id == y
  }

  /** Every wanted id up to the bound is known. */
  predicate Complete(wanted: set<nat>, known: set<nat>, bound: nat) {
    forall y :: y in wanted && y <= bound ==> y in known
  }

  /** Every wanted id up to the bound is known or in flight. */
  predicate CoveredTo(wanted: set<nat>, known: set<nat>, stream: seq<Message>, bound: nat) {
    forall y :: y in wanted && y <= bound ==> y in known || Carries(stream, y)
  }

  /** The ids in flight ascend, and are above the browser's cursor. */
  predicate Ordered(stream: seq<Message>, lastSeen: nat, top: nat) {
    && (forall i, j :: 0 <= i < j < |stream| ==> stream[i].id < stream[j].id)
    && (forall i :: 0 <= i < |stream| ==> lastSeen < stream[i].id <= top)
  }

  /** `top` is at least every id handed out. */
  predicate LinkOk(wanted: set<nat>, known: set<nat>, link: Link, lastSeen: nat, top: nat) {
    match link
    case Down => true
    case Opening(since) => since == lastSeen
    case Up(stream, live) =>
      && Ordered(stream, lastSeen, top)
      && (stream != [] ==> CoveredTo(wanted, known, stream, stream[|stream| - 1].id))
      && (live ==> CoveredTo(wanted, known, stream, top))
  }

  predicate Bounded(ids: set<nat>, top: nat) {
    forall x :: x in ids ==> 1 <= x <= top
  }

  /** What arrives next completes the wanted ids up to its own. */
  lemma NextCompletes(wanted: set<nat>, known: set<nat>, known': set<nat>, stream: seq<Message>, live: bool,
                      lastSeen: nat, top: nat)
    requires stream != [] && LinkOk(wanted, known, Up(stream, live), lastSeen, top)
    requires known <= known' && (stream[0].id in wanted ==> stream[0].id in known')
    ensures Complete(wanted, known', stream[0].id)
  {
    forall y | y in wanted && y <= stream[0].id ensures y in known' {
      assert y <= stream[|stream| - 1].id;
      if Carries(stream, y) {
        var i :| 0 <= i < |stream| && stream[i].id == y;
        assert i == 0;
      }
    }
  }

  lemma DeliverKeepsLink(wanted: set<nat>, known: set<nat>, known': set<nat>, stream: seq<Message>, live: bool,
                         lastSeen: nat, lastSeen': nat, top: nat)
    requires stream != [] && LinkOk(wanted, known, Up(stream, live), lastSeen, top)
    requires known <= known' && (stream[0].id in wanted ==> stream[0].id in known')
    requires lastSeen' == lastSeen || lastSeen' == stream[0].id
    ensures LinkOk(wanted, known', Up(stream[1..], live), lastSeen', top)
  {
    var rest := stream[1..];
    forall y | y in wanted && (y in known || Carries(stream, y)) ensures y in known' || Carries(rest, y) {
      if Carries(stream, y) && y != stream[0].id {
        var i :| 0 <= i < |stream| && stream[i].id == y;
        assert rest[i - 1].id == y;
      }
    }
  }

  lemma CutKeepsLink(wanted: set<nat>, known: set<nat>, link: Link, arriving: nat, lastSeen: nat, top: nat)
    requires LinkOk(wanted, known, link, lastSeen, top)
    ensures LinkOk(wanted, known, Cut(link, arriving), lastSeen, top)
  {
    if link.Up? && Cut(link, arriving).stream != [] {
      var cut := Cut(link, arriving).stream;
      forall y | y in wanted && y <= cut[|cut| - 1].id ensures y in known || Carries(cut, y) {
        assert y <= link.stream[|link.stream| - 1].id;
        if Carries(link.stream, y) {
          PrefixCarries(link.stream, |cut|, y);
        }
      }
    }
  }

  lemma PublishKeepsLink(wanted: set<nat>, wanted': set<nat>, known: set<nat>, link: Link, m: Message, sendOk: bool,
                         lastSeen: nat, top: nat)
    requires LinkOk(wanted, known, link, lastSeen, top) && lastSeen <= top
    requires m.id == top + 1 && wanted' <= wanted + {m.id} && Bounded(wanted, top)
    ensures LinkOk(wanted', known, Broadcast(link, m, sendOk), lastSeen, m.id)
  {
    var link' := Broadcast(link, m, sendOk);
    if link.Up? && link.live && sendOk {
      forall y | y in wanted' ensures y in known || Carries(link'.stream, y) {
        if y == m.id {
          assert link'.stream[|link.stream|].id == y;
        } else if Carries(link.stream, y) {
          var i :| 0 <= i < |link.stream| && link.stream[i].id == y;
          assert link'.stream[i].id == y;
        }
      }
    }
  }

  lemma TopMayRise(wanted: set<nat>, known: set<nat>, link: Link, lastSeen: nat, top: nat, top': nat)
    requires LinkOk(wanted, known, link, lastSeen, top) && top <= top' && Bounded(wanted, top)
    ensures LinkOk(wanted, known, link, lastSeen, top')
  {
  }

  // ---- The join ----

  lemma RingIdIsReplayed(d: DeviceRuns.Device, since: nat, id: nat)
    requires Refines(d.log, d.base, d.messages) && id in RingIds(d.log.buffer) && id > since
    ensures Carries(Replayed(d.messages, |d.log.buffer|, d.base, since), id)
  {
    var size := |d.log.buffer|;
    ReplayedIsConsecutive(d.messages, size, d.base, since);
    var j :| 0 <= j < size && d.log.buffer[j].Some? && d.log.buffer[j].value.id == id;
    assert SlotHolds(d.log.buffer[j], j, size, d.base, d.messages);
    var m := d.messages[id - d.base - 1];
    assert m in d.messages && m in Replayed(d.messages, size, d.base, since);
  }

  lemma PrefixCarries(all: seq<Message>, n: nat, y: nat)
    requires n <= |all| && Carries(all, y)
    requires forall i, j :: 0 <= i < j < |all| ==> all[i].id < all[j].id
    requires n == |all| || (n > 0 && y <= all[n - 1].id)
    ensures Carries(all[..n], y)
  {
    var i :| 0 <= i < |all| && all[i].id == y;
    assert i < n && all[..n][i].id == y;
  }

  /** What a join sends is in order, above the cursor it was given, and no younger than the counter. */
  lemma ReplayedIsOrdered(d: DeviceRuns.Device, since: nat)
    requires Refines(d.log, d.base, d.messages)
    ensures Ordered(Replayed(d.messages, |d.log.buffer|, d.base, since), since, d.log.counter)
  {
    ReplayedIsConsecutive(d.messages, |d.log.buffer|, d.base, since);
  }

  /** At a join each wanted id is known, excused by this join, or replayed. */
  lemma JoinCovers(d: DeviceRuns.Device, wanted: set<nat>, known: set<nat>, since: nat)
    requires Refines(d.log, d.base, d.messages)
    requires Complete(wanted, known, since) && wanted <= PublishedIds(d)
    ensures forall y :: y in wanted ==>
                          y in known + Gone(d, since) || Carries(Replayed(d.messages, |d.log.buffer|, d.base, since), y)
  {
    forall y | y in wanted
      ensures y in known + Gone(d, since) || Carries(Replayed(d.messages, |d.log.buffer|, d.base, since), y)
    {
      if y > since && y in RingIds(d.log.buffer) {
        RingIdIsReplayed(d, since, y);
      }
    }
  }

  lemma JoinKeepsLink(wanted: set<nat>, known: set<nat>, all: seq<Message>, n: nat, synced: bool, since: nat, top: nat)
    requires n <= |all| && Ordered(all, since, top)
    requires forall y :: y in wanted ==> y in known || Carries(all, y)
    ensures LinkOk(wanted, known, Up(all[..n], n == |all| && synced), since, top)
  {
    forall y | y in wanted && y !in known && (n == |all| || (n > 0 && y <= all[n - 1].id))
      ensures Carries(all[..n], y)
    {
      PrefixCarries(all, n, y);
    }
  }

  /** The connection right after the replay. */
  lemma ReplayIsLinkOk(d: DeviceRuns.Device, wanted: set<nat>, known: set<nat>, since: nat, n: nat, synced: bool)
    requires Refines(d.log, d.base, d.messages) && Complete(wanted, known, since) && wanted <= PublishedIds(d)
    requires n <= |Replayed(d.messages, |d.log.buffer|, d.base, since)|
    ensures var all := Replayed(d.messages, |d.log.buffer|, d.base, since);
            LinkOk(wanted, known + Gone(d, since), Up(all[..n], n == |all| && synced), since, d.log.counter)
  {
    var all := Replayed(d.messages, |d.log.buffer|, d.base, since);
    ReplayedIsOrdered(d, since);
    JoinCovers(d, wanted, known, since);
    JoinKeepsLink(wanted, known + Gone(d, since), all, n, synced, since, d.log.counter);
  }

  // ---- What the browser got from the stream ----

  /** Below anything delivered every published id is known. */
  predicate NoGaps(published: set<nat>, delivered: set<nat>, excused: set<nat>) {
    forall x :: x in delivered ==> Complete(published, delivered + excused, x)
  }

  predicate KnownIds(s: seq<ClientStore.Entry>, delivered: set<nat>) {
    forall e :: e in s && !e.recovered ==> e.id in delivered
  }

  /** Both cursors, and every live message in memory or storage, came from the stream. */
  predicate CursorsOk(c: ClientStore.Client, delivered: set<nat>) {
    && (c.lastSeenId == 0 || c.lastSeenId in delivered)
    && (c.storedCursor == 0 || c.storedCursor in delivered)
    && KnownIds(c.allMessages, delivered) && KnownIds(c.snapshot, delivered)
  }

  // ---- What the browser holds ----

  function Held(s: seq<ClientStore.Entry>, pushedOut: set<nat>, excused: set<nat>): set<nat> {
    ClientStore.Ids(s) + pushedOut + excused
  }

  predicate LiveComplete(s: seq<ClientStore.Entry>, wanted: set<nat>, known: set<nat>) {
    forall e :: e in s && !e.recovered ==> Complete(wanted, known, e.id)
  }

  function Memory(p: ClientStore.Session, excused: set<nat>): set<nat> {
    Held(p.client.allMessages, p.pushedOut, excused)
  }

  function Storage(p: ClientStore.Session, excused: set<nat>): set<nat> {
    Held(p.client.snapshot, p.pushedOut, excused)
  }

  /** Nothing wanted is missing below a cursor, in memory or in storage. */
  predicate CursorsComplete(p: ClientStore.Session, wanted: set<nat>, excused: set<nat>) {
    && Complete(wanted, Memory(p, excused), p.client.lastSeenId)
    && Complete(wanted, Memory(p, excused), p.client.storedCursor)
    && Complete(wanted, Storage(p, excused), p.client.storedCursor)
  }

  /** Nor below a live message. */
  predicate PageComplete(p: ClientStore.Session, wanted: set<nat>, excused: set<nat>) {
    && CursorsComplete(p, wanted, excused)
    && LiveComplete(p.client.allMessages, wanted, Memory(p, excused))
    && LiveComplete(p.client.snapshot, wanted, Storage(p, excused))
  }

  predicate EntriesOk(p: ClientStore.Session) {
    ClientStore.ValidEntries(p.client.allMessages) && ClientStore.ValidEntries(p.client.snapshot)
  }

  lemma RetainKeepsKnown(s: seq<ClientStore.Entry>, delivered: set<nat>)
    requires KnownIds(s, delivered)
    ensures KnownIds(ClientStore.Retain(s), delivered)
  {
    ClientStore.RetainFacts(s);
  }

  /** Saving a cache moves ids from it to the pushed out ones at most. */
  lemma RetainKeepsComplete(all: seq<ClientStore.Entry>, pushedOut: set<nat>, excused: set<nat>, wanted: set<nat>)
    ensures Held(all, pushedOut, excused) == Held(ClientStore.Retain(all), pushedOut + ClientStore.Cut(all), excused)
    ensures LiveComplete(all, wanted, Held(all, pushedOut, excused)) ==>
              LiveComplete(ClientStore.Retain(all), wanted, Held(all, pushedOut, excused))
  {
    ClientStore.IdsOfSave(all);
    ClientStore.RetainFacts(all);
  }

  lemma MoreIsKnown(wanted: set<nat>, known: set<nat>, known': set<nat>, s: seq<ClientStore.Entry>, bound: nat)
    requires known <= known'
    ensures Complete(wanted, known, bound) ==> Complete(wanted, known', bound)
    ensures LiveComplete(s, wanted, known) ==> LiveComplete(s, wanted, known')
  {
  }

  /** Saving the cache `all`, in which nothing is missing, leaves a page in which nothing is missing. */
  lemma SaveKeepsCursorsComplete(p: ClientStore.Session, all: seq<ClientStore.Entry>, received: set<nat>, saved: bool,
                                 after: ClientStore.Session, wanted: set<nat>, excused: set<nat>)
    requires ClientStore.Saves(p, all, received, saved, after)
    requires var known := Held(all, p.pushedOut, excused);
             Complete(wanted, known, after.client.lastSeenId) && Complete(wanted, known, after.client.storedCursor)
    requires saved || Complete(wanted, Storage(p, excused) + ClientStore.Cut(all), p.client.storedCursor)
    ensures CursorsComplete(after, wanted, excused)
  {
    RetainKeepsComplete(all, p.pushedOut, excused, wanted);
    assert Held(p.client.snapshot, after.pushedOut, excused) == Storage(p, excused) + ClientStore.Cut(all);
  }

  lemma SaveKeepsComplete(p: ClientStore.Session, all: seq<ClientStore.Entry>, received: set<nat>, saved: bool,
                          after: ClientStore.Session, wanted: set<nat>, excused: set<nat>)
    requires ClientStore.Saves(p, all, received, saved, after) && CursorsComplete(after, wanted, excused)
    requires LiveComplete(all, wanted, Held(all, p.pushedOut, excused))
    requires saved || LiveComplete(p.client.snapshot, wanted, Storage(p, excused))
    ensures PageComplete(after, wanted, excused)
  {
    RetainKeepsComplete(all, p.pushedOut, excused, wanted);
    MoreIsKnown(wanted, Storage(p, excused), Held(p.client.snapshot, after.pushedOut, excused), p.client.snapshot, 0);
  }

  lemma SaveKeepsEntries(p: ClientStore.Session, all: seq<ClientStore.Entry>, received: set<nat>, saved: bool,
                         after: ClientStore.Session)
    requires ClientStore.Saves(p, all, received, saved, after) && EntriesOk(p) && ClientStore.ValidEntries(all)
    ensures EntriesOk(after)
  {
    ClientStore.IdsOfSave(all);
  }

  // ---- Receiving, importing and reloading ----

  lemma ReceiveCursors(p: ClientStore.Session, m: Message, messagesSaved: bool, cursorSaved: bool)
    requires Wire(m)
    ensures var after := ClientStore.Step(p, ClientStore.Receives(m.payload, messagesSaved, cursorSaved));
            && after.client.userId == p.client.userId && after.received <= p.received + {m.id}
            && (after.client.lastSeenId == p.client.lastSeenId || after.client.lastSeenId == m.id)
            && (after.client.storedCursor == p.client.storedCursor || after.client.storedCursor == m.id)
            && (!messagesSaved ==> after.client.storedCursor == p.client.storedCursor)
  {
  }

  lemma ReceiveKeepsCursors(p: ClientStore.Session, m: Message, messagesSaved: bool, cursorSaved: bool,
                            delivered: set<nat>)
    requires CursorsOk(p.client, delivered) && Wire(m)
    ensures CursorsOk(ClientStore.Step(p, ClientStore.Receives(m.payload, messagesSaved, cursorSaved)).client,
                      delivered + {m.id})
  {
    var all := ClientStore.WithIncoming(p.client, m.payload);
    ClientStore.ReceiveShape(p, m.payload, messagesSaved, cursorSaved);
    ReceiveCursors(p, m, messagesSaved, cursorSaved);
    assert KnownIds(all, delivered + {m.id});
    RetainKeepsKnown(all, delivered + {m.id});
  }

  /** The incoming message and the old cache, before retention. */
  lemma IncomingCompletes(p: ClientStore.Session, m: Message, wanted: set<nat>, excused: set<nat>)
    requires CursorsComplete(p, wanted, excused) && Wire(m)
    requires m.id in wanted ==> ClientStore.Counts(p.client, m.payload)
    requires Complete(wanted, Memory(p, excused) + {m.id}, m.id)
    ensures var all := ClientStore.WithIncoming(p.client, m.payload);
            var known := Held(all, p.pushedOut, excused);
            && Memory(p, excused) <= known && (m.id in wanted ==> m.id in known)
            && Complete(wanted, known, m.id) && Complete(wanted, known, p.client.lastSeenId)
            && Complete(wanted, known, p.client.storedCursor)
            && (LiveComplete(p.client.allMessages, wanted, Memory(p, excused)) ==> LiveComplete(all, wanted, known))
  {
    ClientStore.IncomingIds(p.client, m.payload);
    var all := ClientStore.WithIncoming(p.client, m.payload);
    var known := Held(all, p.pushedOut, excused);
    MoreIsKnown(wanted, Memory(p, excused), known, p.client.allMessages, p.client.lastSeenId);
    MoreIsKnown(wanted, Memory(p, excused), known, p.client.allMessages, p.client.storedCursor);
    assert Complete(wanted, known, m.id);
  }

  lemma ReceiveKeepsCursorsComplete(p: ClientStore.Session, m: Message, messagesSaved: bool, cursorSaved: bool,
                                    after: ClientStore.Session, wanted: set<nat>, excused: set<nat>)
    requires after == ClientStore.Step(p, ClientStore.Receives(m.payload, messagesSaved, cursorSaved))
    requires CursorsComplete(p, wanted, excused) && Wire(m)
    requires m.id in wanted ==> ClientStore.Counts(p.client, m.payload)
    requires Complete(wanted, Memory(p, excused) + {m.id}, m.id)
    ensures CursorsComplete(after, wanted, excused)
    ensures var known' := Memory(after, excused);
            Memory(p, excused) <= known' && (m.id in wanted ==> m.id in known')
  {
    var all := ClientStore.WithIncoming(p.client, m.payload);
    var received := p.received + ClientStore.CountedId(p.client, m.payload);
    ClientStore.ReceiveShape(p, m.payload, messagesSaved, cursorSaved);
    ReceiveCursors(p, m, messagesSaved, cursorSaved);
    IncomingCompletes(p, m, wanted, excused);
    RetainKeepsComplete(all, p.pushedOut, excused, wanted);
    SaveKeepsCursorsComplete(p, all, received, messagesSaved, after, wanted, excused);
  }

  lemma ReceiveKeepsPage(p: ClientStore.Session, m: Message, messagesSaved: bool, cursorSaved: bool,
                         after: ClientStore.Session, wanted: set<nat>, excused: set<nat>)
    requires after == ClientStore.Step(p, ClientStore.Receives(m.payload, messagesSaved, cursorSaved))
    requires PageComplete(p, wanted, excused) && Wire(m)
    requires m.id in wanted ==> ClientStore.Counts(p.client, m.payload)
    requires Complete(wanted, Memory(p, excused) + {m.id}, m.id)
    ensures PageComplete(after, wanted, excused)
  {
    var all := ClientStore.WithIncoming(p.client, m.payload);
    var received := p.received + ClientStore.CountedId(p.client, m.payload);
    ClientStore.ReceiveShape(p, m.payload, messagesSaved, cursorSaved);
    IncomingCompletes(p, m, wanted, excused);
    ReceiveKeepsCursorsComplete(p, m, messagesSaved, cursorSaved, after, wanted, excused);
    SaveKeepsComplete(p, all, received, messagesSaved, after, wanted, excused);
  }

  lemma ReceiveKeepsEntries(p: ClientStore.Session, m: Message, messagesSaved: bool, cursorSaved: bool)
    requires EntriesOk(p) && Wire(m)
    ensures EntriesOk(ClientStore.Step(p, ClientStore.Receives(m.payload, messagesSaved, cursorSaved)))
  {
    var after := ClientStore.Step(p, ClientStore.Receives(m.payload, messagesSaved, cursorSaved));
    ClientStore.ReceiveShape(p, m.payload, messagesSaved, cursorSaved);
    ClientStore.IncomingIds(p.client, m.payload);
    SaveKeepsEntries(p, ClientStore.WithIncoming(p.client, m.payload),
                     p.received + ClientStore.CountedId(p.client, m.payload), messagesSaved, after);
  }

  /** A save that leaves the cursors alone. */
  predicate SavesOnly(p: ClientStore.Session, all: seq<ClientStore.Entry>, saved: bool, after: ClientStore.Session) {
    && ClientStore.Saves(p, all, p.received, saved, after)
    && after.client.lastSeenId == p.client.lastSeenId && after.client.storedCursor == p.client.storedCursor
    && after.client.userId == p.client.userId
  }

  lemma ImportSavesOnly(p: ClientStore.Session, e: ClientStore.Event)
    requires e.Imports? && ClientStore.Importable(p.client, e.candidate, e.restoreBefore)
    ensures SavesOnly(p, p.client.allMessages + [ClientStore.Restored(e.candidate, e.source)], e.saved,
                      ClientStore.Step(p, e))
  {
    ClientStore.ImportShape(p, e.candidate, e.source, e.restoreBefore, e.saved);
  }

  lemma SaveKeepsCursors(p: ClientStore.Session, all: seq<ClientStore.Entry>, saved: bool, after: ClientStore.Session,
                         delivered: set<nat>)
    requires SavesOnly(p, all, saved, after) && CursorsOk(p.client, delivered) && KnownIds(all, delivered)
    ensures CursorsOk(after.client, delivered)
  {
    RetainKeepsKnown(all, delivered);
  }

  /** Entries that are not live, added to the cache. */
  predicate AddsRestored(p: ClientStore.Session, all: seq<ClientStore.Entry>) {
    && ClientStore.ValidEntries(all) && ClientStore.Ids(p.client.allMessages) <= ClientStore.Ids(all)
    && forall e :: e in all && !e.recovered ==> e in p.client.allMessages
  }

  lemma ImportAddsRestored(p: ClientStore.Session, e: ClientStore.Event)
    requires e.Imports? && ClientStore.Importable(p.client, e.candidate, e.restoreBefore) && EntriesOk(p)
    ensures AddsRestored(p, p.client.allMessages + [ClientStore.Restored(e.candidate, e.source)])
  {
    ClientStore.ImportedIds(p.client, e.candidate, e.source);
  }

  lemma AdditionKeepsCursorsComplete(p: ClientStore.Session, all: seq<ClientStore.Entry>, saved: bool,
                                     after: ClientStore.Session, wanted: set<nat>, excused: set<nat>)
    requires SavesOnly(p, all, saved, after) && CursorsComplete(p, wanted, excused) && AddsRestored(p, all)
    ensures CursorsComplete(after, wanted, excused) && Memory(p, excused) <= Memory(after, excused)
  {
    var known := Held(all, p.pushedOut, excused);
    MoreIsKnown(wanted, Memory(p, excused), known, [], p.client.lastSeenId);
    MoreIsKnown(wanted, Memory(p, excused), known, [], p.client.storedCursor);
    RetainKeepsComplete(all, p.pushedOut, excused, wanted);
    SaveKeepsCursorsComplete(p, all, p.received, saved, after, wanted, excused);
  }

  /** An entry that is not live adds nothing that must be complete below it. */
  lemma AdditionKeepsComplete(p: ClientStore.Session, all: seq<ClientStore.Entry>, saved: bool,
                              after: ClientStore.Session, wanted: set<nat>, excused: set<nat>)
    requires SavesOnly(p, all, saved, after) && PageComplete(p, wanted, excused) && AddsRestored(p, all)
    ensures PageComplete(after, wanted, excused)
  {
    AdditionKeepsCursorsComplete(p, all, saved, after, wanted, excused);
    MoreIsKnown(wanted, Memory(p, excused), Held(all, p.pushedOut, excused), p.client.allMessages, 0);
    SaveKeepsComplete(p, all, p.received, saved, after, wanted, excused);
  }

  lemma LiveBelowMax(s: seq<ClientStore.Entry>)
    ensures forall e :: e in s && !e.recovered ==> e.id <= ClientStore.MaxId(ClientStore.Live(s))
  {
    ClientStore.SplitLength(s);
    ClientStore.MaxIdIsLargest(ClientStore.Live(s));
  }

  /** The cursor of a new page comes from the stored cursor or a live message in storage. */
  lemma LoadedCursorIsStored(c: ClientStore.Client, load: ClientStore.Load)
    requires ClientStore.ValidEntries(c.snapshot)
    ensures var cursor := ClientStore.LoadedCursor(c, load);
            && cursor <= StoredReach(c)
            && (cursor == 0 || cursor == c.storedCursor
                || exists e :: e in c.snapshot && !e.recovered && e.id == cursor)
  {
    ClientStore.LoadedIsValid(c, load);
    ClientStore.SplitLength(c.snapshot);
    ClientStore.MaxIdIsLargest(ClientStore.Live(c.snapshot));
  }

  lemma ReloadCursors(p: ClientStore.Session, load: ClientStore.Load)
    requires EntriesOk(p)
    ensures var c := ClientStore.Step(p, ClientStore.Reloads(load)).client;
            && c.userId == ClientStore.LoadedUser(p.client, load)
            && c.lastSeenId <= StoredReach(p.client)
            && (c.lastSeenId == 0 || c.lastSeenId == p.client.storedCursor
                || exists e :: e in p.client.snapshot && !e.recovered && e.id == c.lastSeenId)
            && (c.storedCursor == p.client.storedCursor || c.storedCursor == c.lastSeenId)
            && (!load.messagesSaved ==> c.storedCursor == p.client.storedCursor)
  {
    ClientStore.LoadedCursors(p.client, load);
    LoadedCursorIsStored(p.client, load);
  }

  lemma ReloadKeepsCursors(p: ClientStore.Session, load: ClientStore.Load, after: ClientStore.Session,
                           delivered: set<nat>)
    requires after == ClientStore.Step(p, ClientStore.Reloads(load)) && CursorsOk(p.client, delivered) && EntriesOk(p)
    ensures CursorsOk(after.client, delivered) && EntriesOk(after)
  {
    var all := ClientStore.LoadedCache(p.client, load);
    ClientStore.ReloadShape(p, load);
    ClientStore.LoadedIsValid(p.client, load);
    ReloadCursors(p, load);
    RetainKeepsKnown(all, delivered);
    SaveKeepsEntries(p, all, p.received, load.messagesSaved, after);
  }

  /** A page that reads the cache misses nothing of what storage did not miss. */
  lemma ReadCacheIsComplete(p: ClientStore.Session, load: ClientStore.Load, after: ClientStore.Session,
                            wanted: set<nat>, excused: set<nat>)
    requires after == ClientStore.Step(p, ClientStore.Reloads(load)) && load.readCache
    requires PageComplete(p, wanted, excused) && EntriesOk(p)
    ensures PageComplete(after, wanted, excused)
  {
    var all := p.client.snapshot;
    ClientStore.ReloadShape(p, load);
    ClientStore.LoadedIsValid(p.client, load);
    ReloadCursors(p, load);
    assert Held(all, p.pushedOut, excused) == Storage(p, excused);
    SaveKeepsCursorsComplete(p, all, p.received, load.messagesSaved, after, wanted, excused);
    SaveKeepsComplete(p, all, p.received, load.messagesSaved, after, wanted, excused);
  }

  /** Below the cursors that storage can give, a page that wants nothing misses nothing. */
  lemma NothingWantedBelow(p: ClientStore.Session, load: ClientStore.Load, after: ClientStore.Session,
                           wanted: set<nat>, excused: set<nat>)
    requires after == ClientStore.Step(p, ClientStore.Reloads(load)) && EntriesOk(p)
    requires forall y :: y in wanted ==> y > StoredReach(p.client)
    ensures PageComplete(after, wanted, excused)
  {
    ClientStore.ReloadShape(p, load);
    ClientStore.LoadedIsValid(p.client, load);
    ReloadCursors(p, load);
    LiveBelowMax(p.client.snapshot);
    ClientStore.RetainFacts(ClientStore.LoadedCache(p.client, load));
  }

  // ---- Valid systems ----

  /** The browser accepts the payload and reads the server's id from it. */
  predicate Wire(m: Message) {
    ValidHistoryMessage(m.payload) && m.payload["id"].n == m.id
  }

  /** Messages as they were published. */
  predicate AllPosted(messages: seq<Message>, posted: map<nat, Fields>) {
    forall m :: m in messages ==> Wire(m) && m.id in posted && posted[m.id] == m.payload
  }

  ghost predicate DeviceOk(d: DeviceRuns.Device, posted: map<nat, Fields>) {
    && DeviceRuns.Sound(d) && AllPosted(d.messages, posted)
    && posted.Keys == PublishedIds(d) && Bounded(posted.Keys, Committed(d.log.cell))
  }

  /** Nothing published is missing from what the browser got. */
  ghost predicate StreamOk(s: System) {
    && NoGaps(s.posted.Keys, s.delivered, s.excused) && Bounded(s.delivered, Committed(s.device.log.cell))
    && LinkOk(s.posted.Keys, s.delivered + s.excused, s.link, s.page.client.lastSeenId, Committed(s.device.log.cell))
    && (s.link.Up? ==> AllPosted(s.link.stream, s.posted))
  }

  /** Cursors and entries are real, and what was received was published. */
  predicate PageOk(s: System) {
    && s.page.received <= s.posted.Keys
    && CursorsOk(s.page.client, s.delivered) && EntriesOk(s.page)
  }

  /** The user misses nothing from the browser, or from what is in flight, but for some excused ids. */
  ghost predicate Owes(s: System, excused: set<nat>) {
    && PageComplete(s.page, Wanted(s), excused)
    && LinkOk(Wanted(s), Memory(s.page, excused), s.link, s.page.client.lastSeenId, Committed(s.device.log.cell))
  }

  /** An excused message is nowhere on the server. */
  predicate ExcusedIsGone(s: System) {
    forall id :: id in s.excused ==>
      && id in s.posted && id !in RingIds(s.device.log.buffer)
      && (s.link.Up? ==> !Carries(s.link.stream, id))
  }

  ghost predicate Sound(s: System) {
    DeviceOk(s.device, s.posted) && StreamOk(s) && PageOk(s) && ExcusedIsGone(s)
  }

  ghost predicate Valid(s: System) {
    Sound(s) && Owes(s, s.excused)
  }

  // ---- Every step keeps a valid system valid ----

  predicate Compatible(limits: Limits) {
    limits.maxTextBytes <= 256 && limits.maxClients <= 16
  }

  function StoredAs(root: Fields, id: nat, env: StoreEnv): Message {
    Message(id, Finalize(root, id, env.timestamp))
  }

  lemma StoreOutcome(d: DeviceRuns.Device, root: Fields, env: StoreEnv)
    requires DeviceRuns.Sound(d)
    ensures var (after, result) := (DeviceRuns.Step(d, DeviceRuns.Stores(root, env)), Store(d.log, root, env).1);
            var id := Committed(d.log.cell) + 1;
            if result.Stored? then
              && result.message == StoredAs(root, id, env)
              && id == Committed(after.log.cell) <= MAX_SAFE_ID
              && after.published == d.published + [id] && after.messages == d.messages + [result.message]
            else
              after.published == d.published && after.messages == d.messages
  {
    DeviceRuns.EnsureIsSound(d, env.read, env.reload);
  }

  lemma StoredIsWire(root: Fields, limits: Limits, id: nat, env: StoreEnv)
    requires Compatible(limits) && ValidateChat(root, limits).Accept? && 1 <= id <= MAX_SAFE_ID
    ensures Wire(StoredAs(ValidateChat(root, limits).root, id, env))
  {
    StoredMessagePassesClient(root, limits, id, env.timestamp);
  }

  /** Publishing under a new id leaves what was published before alone. */
  lemma PostedGrows(messages: seq<Message>, posted: map<nat, Fields>, m: Message)
    requires AllPosted(messages, posted) && m.id !in posted && Wire(m)
    ensures AllPosted(messages, posted[m.id := m.payload]) && AllPosted(messages + [m], posted[m.id := m.payload])
  {
  }

  lemma PublishKeepsDevice(d: DeviceRuns.Device, d': DeviceRuns.Device, posted: map<nat, Fields>, m: Message)
    requires DeviceOk(d, posted) && DeviceRuns.Sound(d') && Wire(m)
    requires m.id == Committed(d.log.cell) + 1 == Committed(d'.log.cell)
    requires d'.published == d.published + [m.id] && d'.messages == d.messages + [m]
    ensures DeviceOk(d', posted[m.id := m.payload])
  {
    PostedGrows(d.messages, posted, m);
    assert PublishedIds(d') == PublishedIds(d) + {m.id};
  }

  lemma PostKeepsDevice(d: DeviceRuns.Device, posted: map<nat, Fields>, root: Fields, env: StoreEnv, limits: Limits)
    requires DeviceOk(d, posted) && Compatible(limits) && ValidateChat(root, limits).Accept?
    ensures var accepted := ValidateChat(root, limits).root;
            var result := Store(d.log, accepted, env).1;
            DeviceOk(DeviceRuns.Step(d, DeviceRuns.Stores(accepted, env)),
                     if result.Stored? then posted[result.message.id := result.message.payload] else posted)
  {
    var accepted := ValidateChat(root, limits).root;
    var d', result := DeviceRuns.Step(d, DeviceRuns.Stores(accepted, env)), Store(d.log, accepted, env).1;
    DeviceRuns.StoreIsSound(d, accepted, env);
    StoreOutcome(d, accepted, env);
    if result.Stored? {
      StoredIsWire(root, limits, Committed(d.log.cell) + 1, env);
      PublishKeepsDevice(d, d', posted, result.message);
    } else {
      assert PublishedIds(d') == PublishedIds(d);
    }
  }

  lemma CursorBelowTop(s: System)
    requires StreamOk(s) && PageOk(s)
    ensures s.page.client.storedCursor <= Committed(s.device.log.cell)
    ensures s.page.client.lastSeenId <= Committed(s.device.log.cell)
    ensures forall e :: (e in s.page.client.allMessages || e in s.page.client.snapshot) && !e.recovered ==>
                          e.id <= Committed(s.device.log.cell)
  {
  }

  // ---- Posts ----

  /** A store adds at most its own message to the ring, and no other step adds any. */
  lemma RingAfterStep(d: DeviceRuns.Device, e: DeviceRuns.Event)
    requires d.log.head < |d.log.buffer|
    ensures var d' := DeviceRuns.Step(d, e);
            forall id :: id in RingIds(d'.log.buffer) ==>
              || id in RingIds(d.log.buffer)
              || (e.Stores? && Store(d.log, e.root, e.env).1.Stored? && id == Store(d.log, e.root, e.env).1.message.id)
    ensures e.Ensures? ==> DeviceRuns.Step(d, e).log.buffer == d.log.buffer
                           && DeviceRuns.Step(d, e).published == d.published
  {
    var buffer, buffer' := d.log.buffer, DeviceRuns.Step(d, e).log.buffer;
    forall i | 0 <= i < |buffer'| && buffer'[i].Some? && (!e.Stores? || i != d.log.head)
      ensures buffer'[i].value.id in RingIds(buffer)
    {
      assert buffer'[i] == buffer[i];
    }
  }

  lemma PublishKeepsStream(s: System, d: DeviceRuns.Device, m: Message, sendOk: bool)
    requires StreamOk(s) && PageOk(s) && DeviceOk(s.device, s.posted)
    requires Wire(m) && m.id == Committed(s.device.log.cell) + 1 == Committed(d.log.cell)
    ensures StreamOk(s.(device := d, link := Broadcast(s.link, m, sendOk), posted := s.posted[m.id := m.payload]))
  {
    var top, posted' := Committed(s.device.log.cell), s.posted[m.id := m.payload];
    CursorBelowTop(s);
    assert posted'.Keys == s.posted.Keys + {m.id};
    PublishKeepsLink(s.posted.Keys, posted'.Keys, s.delivered + s.excused, s.link, m, sendOk,
                     s.page.client.lastSeenId, top);
    if s.link.Up? {
      PostedGrows(s.link.stream, s.posted, m);
    }
  }

  lemma BroadcastCarries(link: Link, m: Message, sendOk: bool)
    ensures var link' := Broadcast(link, m, sendOk);
            link'.Up? ==> link.Up? && forall id :: Carries(link'.stream, id) ==> Carries(link.stream, id) || id == m.id
  {
    if link.Up? && link.live && sendOk {
      forall i | 0 <= i <= |link.stream|
        ensures (link.stream + [m])[i].id == m.id || Carries(link.stream, (link.stream + [m])[i].id)
      {
        if i < |link.stream| {
          assert (link.stream + [m])[i] == link.stream[i];
        }
      }
    }
  }

  lemma PublishKeepsExcuses(s: System, d: DeviceRuns.Device, m: Message, sendOk: bool)
    requires ExcusedIsGone(s) && m.id !in s.posted
    requires forall id :: id in RingIds(d.log.buffer) ==> id in RingIds(s.device.log.buffer) || id == m.id
    ensures ExcusedIsGone(s.(device := d, link := Broadcast(s.link, m, sendOk), posted := s.posted[m.id := m.payload]))
  {
    BroadcastCarries(s.link, m, sendOk);
  }

  lemma PublishKeepsPageComplete(p: ClientStore.Session, wanted: set<nat>, wanted': set<nat>, excused: set<nat>,
                                 id: nat)
    requires PageComplete(p, wanted, excused) && wanted' <= wanted + {id}
    requires p.client.lastSeenId < id && p.client.storedCursor < id
    requires forall e :: (e in p.client.allMessages || e in p.client.snapshot) && !e.recovered ==> e.id < id
    ensures PageComplete(p, wanted', excused)
  {
  }

  lemma PublishOwes(s: System, d: DeviceRuns.Device, m: Message, sendOk: bool, excused: set<nat>)
    requires Sound(s) && Owes(s, excused)
    requires m.id == Committed(s.device.log.cell) + 1 == Committed(d.log.cell)
    ensures Owes(s.(device := d, link := Broadcast(s.link, m, sendOk), posted := s.posted[m.id := m.payload]), excused)
  {
    var s' := s.(device := d, link := Broadcast(s.link, m, sendOk), posted := s.posted[m.id := m.payload]);
    CursorBelowTop(s);
    assert Wanted(s') <= Wanted(s) + {m.id};
    PublishKeepsPageComplete(s.page, Wanted(s), Wanted(s'), excused, m.id);
    PublishKeepsLink(Wanted(s), Wanted(s'), Memory(s.page, excused), s.link, m, sendOk,
                     s.page.client.lastSeenId, Committed(s.device.log.cell));
  }

  /** A device step that publishes nothing. */
  predicate Unpublished(s: System, d: DeviceRuns.Device, link: Link) {
    && Committed(s.device.log.cell) <= Committed(d.log.cell)
    && RingIds(d.log.buffer) <= RingIds(s.device.log.buffer)
    && (link == s.link || (s.link.Up? && link == s.link.(live := false)))
  }

  lemma UnpublishedIsSound(s: System, d: DeviceRuns.Device, link: Link)
    requires Sound(s) && DeviceOk(d, s.posted) && Unpublished(s, d, link)
    ensures Sound(s.(device := d, link := link))
  {
    TopMayRise(s.posted.Keys, s.delivered + s.excused, s.link, s.page.client.lastSeenId,
               Committed(s.device.log.cell), Committed(d.log.cell));
  }

  lemma UnpublishedOwes(s: System, d: DeviceRuns.Device, link: Link, excused: set<nat>)
    requires Sound(s) && Owes(s, excused) && Unpublished(s, d, link)
    ensures Owes(s.(device := d, link := link), excused)
  {
    TopMayRise(Wanted(s), Memory(s.page, excused), s.link, s.page.client.lastSeenId,
               Committed(s.device.log.cell), Committed(d.log.cell));
  }

  /** What a post of an accepted message does. */
  lemma PostShape(s: System, root: Fields, env: StoreEnv, limits: Limits)
    requires DeviceOk(s.device, s.posted) && Compatible(limits) && ValidateChat(root, limits).Accept?
    ensures var accepted := ValidateChat(root, limits).root;
            var d, result := DeviceRuns.Step(s.device, DeviceRuns.Stores(accepted, env)),
                             Store(s.device.log, accepted, env).1;
            && DeviceOk(d, Post(s, accepted, env, true).posted)
            && if result.Stored? then
                 && Wire(result.message) && result.message.id !in s.posted
                 && result.message.id == Committed(s.device.log.cell) + 1 == Committed(d.log.cell)
                 && forall id :: id in RingIds(d.log.buffer) ==>
                                   id in RingIds(s.device.log.buffer) || id == result.message.id
               else Unpublished(s, d, s.link)
  {
    var accepted := ValidateChat(root, limits).root;
    PostKeepsDevice(s.device, s.posted, root, env, limits);
    StoreOutcome(s.device, accepted, env);
    DeviceRuns.StoreIsSound(s.device, accepted, env);
    RingAfterStep(s.device, DeviceRuns.Stores(accepted, env));
    if Store(s.device.log, accepted, env).1.Stored? {
      StoredIsWire(root, limits, Committed(s.device.log.cell) + 1, env);
    }
  }

  lemma PostIsSound(s: System, root: Fields, env: StoreEnv, sendOk: bool, limits: Limits)
    requires Sound(s) && Compatible(limits) && ValidateChat(root, limits).Accept?
    ensures Sound(Post(s, ValidateChat(root, limits).root, env, sendOk))
  {
    var accepted := ValidateChat(root, limits).root;
    var d, result := DeviceRuns.Step(s.device, DeviceRuns.Stores(accepted, env)), Store(s.device.log, accepted, env).1;
    PostShape(s, root, env, limits);
    if result.Stored? {
      PublishKeepsStream(s, d, result.message, sendOk);
      PublishKeepsExcuses(s, d, result.message, sendOk);
    } else {
      UnpublishedIsSound(s, d, s.link);
    }
  }

  lemma PostOwes(s: System, root: Fields, env: StoreEnv, sendOk: bool, limits: Limits, excused: set<nat>)
    requires Sound(s) && Owes(s, excused) && Compatible(limits) && ValidateChat(root, limits).Accept?
    ensures Owes(Post(s, ValidateChat(root, limits).root, env, sendOk), excused)
  {
    var accepted := ValidateChat(root, limits).root;
    var d, result := DeviceRuns.Step(s.device, DeviceRuns.Stores(accepted, env)), Store(s.device.log, accepted, env).1;
    PostShape(s, root, env, limits);
    if result.Stored? {
      PublishOwes(s, d, result.message, sendOk, excused);
    } else {
      UnpublishedOwes(s, d, s.link, excused);
    }
  }

  lemma DeviceStepFacts(d: DeviceRuns.Device, posted: map<nat, Fields>, e: DeviceRuns.Event)
    requires DeviceOk(d, posted) && !e.Stores?
    ensures var d' := DeviceRuns.Step(d, e);
            && DeviceOk(d', posted) && d'.published == d.published
            && Committed(d.log.cell) <= Committed(d'.log.cell)
            && RingIds(d'.log.buffer) <= RingIds(d.log.buffer)
  {
    DeviceRuns.StepIsSound(d, e);
    RingAfterStep(d, e);
  }

  // ---- Joins ----

  lemma MoreExcusesKeepPage(p: ClientStore.Session, wanted: set<nat>, excused: set<nat>, more: set<nat>)
    requires PageComplete(p, wanted, excused)
    ensures PageComplete(p, wanted, excused + more)
  {
    MoreIsKnown(wanted, Memory(p, excused), Memory(p, excused + more), p.client.allMessages, p.client.lastSeenId);
    MoreIsKnown(wanted, Memory(p, excused), Memory(p, excused + more), p.client.allMessages, p.client.storedCursor);
    MoreIsKnown(wanted, Storage(p, excused), Storage(p, excused + more), p.client.snapshot, p.client.storedCursor);
  }

  lemma ReplayedIsPosted(d: DeviceRuns.Device, posted: map<nat, Fields>, since: nat, n: nat)
    requires DeviceOk(d, posted) && n <= |Replayed(d.messages, |d.log.buffer|, d.base, since)|
    ensures AllPosted(Replayed(d.messages, |d.log.buffer|, d.base, since)[..n], posted)
  {
    ReplayedIsConsecutive(d.messages, |d.log.buffer|, d.base, since);
  }

  /** What a join sends is in the ring. */
  lemma ReplayedIsInRing(d: DeviceRuns.Device, since: nat, n: nat)
    requires Refines(d.log, d.base, d.messages) && n <= |Replayed(d.messages, |d.log.buffer|, d.base, since)|
    ensures forall id :: Carries(Replayed(d.messages, |d.log.buffer|, d.base, since)[..n], id) ==>
                           id in RingIds(d.log.buffer)
  {
    var size := |d.log.buffer|;
    var all := Replayed(d.messages, size, d.base, since);
    var start := |d.messages| - |all|;
    forall i | 0 <= i < n ensures all[i].id in RingIds(d.log.buffer) {
      assert all[i] == d.messages[start + i];
      assert d.log.buffer[(start + i) % size] == Some(d.messages[start + i]);
    }
  }

  lemma CounterIsTop(d: DeviceRuns.Device, posted: map<nat, Fields>)
    requires DeviceOk(d, posted) && d.log.counterValid
    ensures d.log.counter == Committed(d.log.cell) && Refines(d.log, d.base, d.messages)
  {
  }

  /** A join starts from a cursor below which nothing is missing. */
  lemma CursorIsComplete(s: System)
    requires Sound(s)
    ensures Complete(s.posted.Keys, s.delivered + s.excused, s.page.client.lastSeenId)
  {
  }

  lemma JoinedIsSound(s: System, d: DeviceRuns.Device, link: Link, more: set<nat>)
    requires Sound(s) && DeviceOk(d, s.posted) && Committed(s.device.log.cell) <= Committed(d.log.cell)
    requires RingIds(d.log.buffer) <= RingIds(s.device.log.buffer)
    requires link.Up? && AllPosted(link.stream, s.posted)
    requires LinkOk(s.posted.Keys, s.delivered + s.excused + more, link, s.page.client.lastSeenId,
                    Committed(d.log.cell))
    requires forall id :: Carries(link.stream, id) ==> id in RingIds(d.log.buffer)
    requires forall id :: id in more ==> id in s.posted && id !in RingIds(d.log.buffer)
    ensures Sound(s.(device := d, link := link, excused := s.excused + more))
  {
    assert s.delivered + (s.excused + more) == s.delivered + s.excused + more;
  }

  lemma JoinIsSound(s: System, read: ReadFaults, reload: WriteFaults, sends: nat, synced: bool, s': System)
    requires Sound(s) && s.link.Opening? && s' == Join(s, read, reload, sends, synced)
    ensures Sound(s')
  {
    var d := DeviceRuns.Step(s.device, DeviceRuns.Ensures(read, reload));
    DeviceStepFacts(s.device, s.posted, DeviceRuns.Ensures(read, reload));
    if d.log.counterValid {
      var since := s.link.since;
      var all := Replayed(d.messages, |d.log.buffer|, d.base, since);
      var n := Min(sends, |all|);
      CounterIsTop(d, s.posted);
      CursorIsComplete(s);
      ReplayIsLinkOk(d, s.posted.Keys, s.delivered + s.excused, since, n, synced);
      ReplayedIsPosted(d, s.posted, since, n);
      ReplayedIsInRing(d, since, n);
      JoinedIsSound(s, d, Up(all[..n], n == |all| && synced), Gone(d, since));
    } else {
      assert s.excused + {} == s.excused;
      JoinedIsSound(s, d, Up([], false), {});
    }
  }

  /** A join asks for everything after the cursor, and gets what is in the ring. */
  predicate JoinGets(s: System, read: ReadFaults, reload: WriteFaults, wanted: set<nat>, known: set<nat>)
    requires s.link.Opening? && s.device.log.head < |s.device.log.buffer|
  {
    DeviceRuns.Step(s.device, DeviceRuns.Ensures(read, reload)).log.counterValid ==>
      forall y :: y in wanted && y in Gone(s.device, s.link.since) ==> y in known
  }

  /** After a join what is wanted is known or in flight, if what has left the ring was known. */
  lemma JoinIsLinkOk(s: System, read: ReadFaults, reload: WriteFaults, sends: nat, synced: bool, s': System,
                     wanted: set<nat>, known: set<nat>)
    requires DeviceOk(s.device, s.posted) && s.link.Opening? && s' == Join(s, read, reload, sends, synced)
    requires wanted <= s.posted.Keys && Complete(wanted, known, s.link.since)
    requires JoinGets(s, read, reload, wanted, known)
    ensures LinkOk(wanted, known, s'.link, s.link.since, Committed(s'.device.log.cell))
  {
    var d := DeviceRuns.Step(s.device, DeviceRuns.Ensures(read, reload));
    DeviceStepFacts(s.device, s.posted, DeviceRuns.Ensures(read, reload));
    RingAfterStep(s.device, DeviceRuns.Ensures(read, reload));
    if d.log.counterValid {
      var since := s.link.since;
      var all := Replayed(d.messages, |d.log.buffer|, d.base, since);
      CounterIsTop(d, s.posted);
      ReplayedIsOrdered(d, since);
      JoinCovers(d, wanted, known, since);
      assert Gone(d, since) == Gone(s.device, since);
      JoinKeepsLink(wanted, known, all, Min(sends, |all|), synced, since, d.log.counter);
    }
  }

  lemma JoinOwes(s: System, read: ReadFaults, reload: WriteFaults, sends: nat, synced: bool, s': System,
                 excused: set<nat>, more: set<nat>)
    requires Sound(s) && Owes(s, excused) && s.link.Opening? && s' == Join(s, read, reload, sends, synced)
    requires JoinGets(s, read, reload, Wanted(s), Memory(s.page, excused) + more)
    ensures Owes(s', excused + more)
  {
    var known := Memory(s.page, excused) + more;
    assert Memory(s.page, excused + more) == known;
    MoreExcusesKeepPage(s.page, Wanted(s), excused, more);
    assert Wanted(s') == Wanted(s);
    JoinIsLinkOk(s, read, reload, sends, synced, s', Wanted(s), known);
  }

  /** A join excuses whatever has left the ring. */
  lemma JoinExcuses(s: System, read: ReadFaults, reload: WriteFaults, sends: nat, synced: bool, s': System)
    requires Valid(s) && s.link.Opening? && s' == Join(s, read, reload, sends, synced)
    ensures Owes(s', s'.excused)
  {
    var more := MoreExcused(s, read, reload, sends, synced, s');
    JoinOwes(s, read, reload, sends, synced, s', s.excused, more);
  }

  lemma MoreExcused(s: System, read: ReadFaults, reload: WriteFaults, sends: nat, synced: bool, s': System)
    returns (more: set<nat>)
    requires DeviceOk(s.device, s.posted) && s.link.Opening? && s' == Join(s, read, reload, sends, synced)
    ensures s'.excused == s.excused + more
    ensures more == if s'.device.log.counterValid then Gone(s.device, s.link.since) else {}
    ensures s'.device == DeviceRuns.Step(s.device, DeviceRuns.Ensures(read, reload))
  {
    var d := DeviceRuns.Step(s.device, DeviceRuns.Ensures(read, reload));
    RingAfterStep(s.device, DeviceRuns.Ensures(read, reload));
    assert Gone(d, s.link.since) == Gone(s.device, s.link.since);
    more := if d.log.counterValid then Gone(s.device, s.link.since) else {};
  }

  // ---- Deliveries ----

  /** What is delivered was published, so it is for the user exactly if what was published is. */
  lemma HeadIsPosted(s: System)
    requires Sound(s) && s.link.Up? && s.link.stream != []
    ensures var m := s.link.stream[0];
            && Wire(m) && m.id in s.posted && s.posted[m.id] == m.payload && s.page.client.lastSeenId < m.id
            && m.id <= Committed(s.device.log.cell)
            && (ClientStore.IsFor(s.posted[m.id], s.page.client.userId) <==>
                ClientStore.Counts(s.page.client, m.payload))
  {
    assert s.link.stream[0] in s.link.stream;
    ClientStore.ForMeIsFor(s.page.client.userId, s.link.stream[0].payload);
  }

  lemma DeliverKeepsStream(published: set<nat>, delivered: set<nat>, excused: set<nat>, stream: seq<Message>,
                           live: bool, lastSeen: nat, lastSeen': nat, top: nat)
    requires NoGaps(published, delivered, excused) && stream != []
    requires LinkOk(published, delivered + excused, Up(stream, live), lastSeen, top)
    requires lastSeen' == lastSeen || lastSeen' == stream[0].id
    ensures var delivered' := delivered + {stream[0].id};
            && NoGaps(published, delivered', excused)
            && LinkOk(published, delivered' + excused, Up(stream[1..], live), lastSeen', top)
  {
    var known, known' := delivered + excused, delivered + {stream[0].id} + excused;
    DeliverKeepsLink(published, known, known', stream, live, lastSeen, lastSeen', top);
    NextCompletes(published, known, known', stream, live, lastSeen, top);
    DeliveredHasNoGaps(published, delivered, excused, stream[0].id);
  }

  lemma DeliveredHasNoGaps(published: set<nat>, delivered: set<nat>, excused: set<nat>, id: nat)
    requires NoGaps(published, delivered, excused) && Complete(published, delivered + {id} + excused, id)
    ensures NoGaps(published, delivered + {id}, excused)
  {
  }

  lemma RestIsPosted(stream: seq<Message>, posted: map<nat, Fields>)
    requires stream != [] && AllPosted(stream, posted)
    ensures AllPosted(stream[1..], posted)
    ensures forall id :: Carries(stream[1..], id) ==> Carries(stream, id)
  {
    forall id | Carries(stream[1..], id) ensures Carries(stream, id) {
      var i :| 0 <= i < |stream[1..]| && stream[1..][i].id == id;
      assert stream[i + 1].id == id;
    }
  }

  lemma DeliverKeepsPageOk(s: System, messagesSaved: bool, cursorSaved: bool, s': System)
    requires Sound(s) && s.link.Up? && s.link.stream != [] && s' == Deliver(s, messagesSaved, cursorSaved)
    ensures PageOk(s')
    ensures var last' := s'.page.client.lastSeenId;
            last' == s.page.client.lastSeenId || last' == s.link.stream[0].id
  {
    var m := s.link.stream[0];
    HeadIsPosted(s);
    ReceiveCursors(s.page, m, messagesSaved, cursorSaved);
    ReceiveKeepsCursors(s.page, m, messagesSaved, cursorSaved, s.delivered);
    ReceiveKeepsEntries(s.page, m, messagesSaved, cursorSaved);
  }

  lemma DeliverKeepsStreamOk(s: System, s': System)
    requires StreamOk(s) && s.link.Up? && s.link.stream != [] && s.link.stream[0].id <= Committed(s.device.log.cell)
    requires s'.device == s.device && s'.posted == s.posted && s'.excused == s.excused
    requires s'.link == s.link.(stream := s.link.stream[1..]) && s'.delivered == s.delivered + {s.link.stream[0].id}
    requires var last' := s'.page.client.lastSeenId;
             last' == s.page.client.lastSeenId || last' == s.link.stream[0].id
    ensures StreamOk(s')
  {
    RestIsPosted(s.link.stream, s.posted);
    DeliverKeepsStream(s.posted.Keys, s.delivered, s.excused, s.link.stream, s.link.live,
                       s.page.client.lastSeenId, s'.page.client.lastSeenId, Committed(s.device.log.cell));
  }

  lemma DeliverKeepsExcuses(s: System, s': System)
    requires ExcusedIsGone(s) && s.link.Up? && s.link.stream != [] && AllPosted(s.link.stream, s.posted)
    requires s'.device == s.device && s'.posted == s.posted && s'.excused == s.excused
    requires s'.link == s.link.(stream := s.link.stream[1..])
    ensures ExcusedIsGone(s')
  {
    RestIsPosted(s.link.stream, s.posted);
  }

  lemma DeliverIsSound(s: System, messagesSaved: bool, cursorSaved: bool, s': System)
    requires Sound(s) && s.link.Up? && s.link.stream != [] && s' == Deliver(s, messagesSaved, cursorSaved)
    ensures Sound(s')
  {
    HeadIsPosted(s);
    DeliverKeepsPageOk(s, messagesSaved, cursorSaved, s');
    DeliverKeepsStreamOk(s, s');
    DeliverKeepsExcuses(s, s');
  }

  lemma DeliverCompletes(s: System, messagesSaved: bool, cursorSaved: bool, page: ClientStore.Session,
                         excused: set<nat>)
    requires Sound(s) && Owes(s, excused) && s.link.Up? && s.link.stream != []
    requires page == ClientStore.Step(s.page,
                                      ClientStore.Receives(s.link.stream[0].payload, messagesSaved, cursorSaved))
    ensures PageComplete(page, Wanted(s), excused) && page.client.userId == s.page.client.userId
    ensures Memory(s.page, excused) <= Memory(page, excused)
    ensures s.link.stream[0].id in Wanted(s) ==> s.link.stream[0].id in Memory(page, excused)
  {
    var m, p := s.link.stream[0], s.page;
    var wanted, known := Wanted(s), Memory(p, excused);
    HeadIsPosted(s);
    NextCompletes(wanted, known, known + {m.id}, s.link.stream, s.link.live, p.client.lastSeenId,
                  Committed(s.device.log.cell));
    ReceiveCursors(p, m, messagesSaved, cursorSaved);
    ReceiveKeepsCursorsComplete(p, m, messagesSaved, cursorSaved, page, wanted, excused);
    ReceiveKeepsPage(p, m, messagesSaved, cursorSaved, page, wanted, excused);
  }

  lemma DeliverOwes(s: System, messagesSaved: bool, cursorSaved: bool, s': System, excused: set<nat>)
    requires Sound(s) && Owes(s, excused) && s.link.Up? && s.link.stream != []
    requires s' == Deliver(s, messagesSaved, cursorSaved)
    ensures Owes(s', excused)
  {
    DeliverCompletes(s, messagesSaved, cursorSaved, s'.page, excused);
    DeliverKeepsPageOk(s, messagesSaved, cursorSaved, s');
    assert Wanted(s') == Wanted(s);
    DeliverKeepsLink(Wanted(s), Memory(s.page, excused), Memory(s'.page, excused), s.link.stream, s.link.live,
                     s.page.client.lastSeenId, s'.page.client.lastSeenId, Committed(s.device.log.cell));
  }

  // ---- Cuts, imports and reloads ----

  lemma CutIsSound(s: System, arriving: nat)
    requires Sound(s)
    ensures Sound(s.(link := Cut(s.link, arriving)))
  {
    CutKeepsLink(s.posted.Keys, s.delivered + s.excused, s.link, arriving, s.page.client.lastSeenId,
                 Committed(s.device.log.cell));
    if s.link.Up? {
      CutCarriesLess(s.link, arriving);
    }
  }

  lemma CutCarriesLess(link: Link, arriving: nat)
    requires link.Up?
    ensures forall id :: Carries(Cut(link, arriving).stream, id) ==> Carries(link.stream, id)
  {
    var cut := Cut(link, arriving).stream;
    forall id | Carries(cut, id) ensures Carries(link.stream, id) {
      var i :| 0 <= i < |cut| && cut[i].id == id;
      assert link.stream[i].id == id;
    }
  }

  lemma CutOwes(s: System, arriving: nat, excused: set<nat>)
    requires Owes(s, excused)
    ensures Owes(s.(link := Cut(s.link, arriving)), excused)
  {
    CutKeepsLink(Wanted(s), Memory(s.page, excused), s.link, arriving, s.page.client.lastSeenId,
                 Committed(s.device.log.cell));
  }

  /** An import only adds to what the browser holds. */
  lemma MoreHeldKeepsLink(wanted: set<nat>, known: set<nat>, known': set<nat>, link: Link, lastSeen: nat, top: nat)
    requires LinkOk(wanted, known, link, lastSeen, top) && known <= known'
    ensures LinkOk(wanted, known', link, lastSeen, top)
  {
  }

  lemma ImportIsSound(s: System, e: ClientStore.Event, page: ClientStore.Session)
    requires Sound(s) && e.Imports? && page == ClientStore.Step(s.page, e)
    ensures Sound(s.(page := page))
  {
    if ClientStore.Importable(s.page.client, e.candidate, e.restoreBefore) {
      var all := s.page.client.allMessages + [ClientStore.Restored(e.candidate, e.source)];
      ImportSavesOnly(s.page, e);
      ImportAddsRestored(s.page, e);
      SaveKeepsCursors(s.page, all, e.saved, page, s.delivered);
      SaveKeepsEntries(s.page, all, s.page.received, e.saved, page);
    }
  }

  lemma AdditionOwes(s: System, all: seq<ClientStore.Entry>, saved: bool, page: ClientStore.Session, excused: set<nat>)
    requires Owes(s, excused) && SavesOnly(s.page, all, saved, page) && AddsRestored(s.page, all)
    ensures Owes(s.(page := page), excused)
  {
    AdditionKeepsCursorsComplete(s.page, all, saved, page, Wanted(s), excused);
    AdditionKeepsComplete(s.page, all, saved, page, Wanted(s), excused);
    assert Wanted(s.(page := page)) == Wanted(s);
    MoreHeldKeepsLink(Wanted(s), Memory(s.page, excused), Memory(page, excused), s.link,
                      s.page.client.lastSeenId, Committed(s.device.log.cell));
  }

  lemma ImportOwes(s: System, e: ClientStore.Event, page: ClientStore.Session, excused: set<nat>)
    requires Sound(s) && Owes(s, excused) && e.Imports? && page == ClientStore.Step(s.page, e)
    ensures Owes(s.(page := page), excused)
  {
    if ClientStore.Importable(s.page.client, e.candidate, e.restoreBefore) {
      ImportSavesOnly(s.page, e);
      ImportAddsRestored(s.page, e);
      var all := s.page.client.allMessages + [ClientStore.Restored(e.candidate, e.source)];
      AdditionOwes(s, all, e.saved, page, excused);
    }
  }

  /** A user that no message names gets no message that another user would not get. */
  lemma NewUserWantsNoMore(posted: map<nat, Fields>, user: Text, other: Text, above: nat)
    requires forall id :: id in posted ==> !Names(posted[id], user)
    ensures Addressed(posted, user, above) <= Addressed(posted, other, above)
  {
  }

  lemma ReloadIsSound(s: System, load: ClientStore.Load)
    requires Sound(s)
    ensures Sound(Reload(s, load))
  {
    ReloadKeepsCursors(s.page, load, Reload(s, load).page, s.delivered);
    ClientStore.ReloadShape(s.page, load);
  }

  lemma LessWanted(p: ClientStore.Session, wanted: set<nat>, wanted': set<nat>, excused: set<nat>)
    requires PageComplete(p, wanted, excused) && wanted' <= wanted
    ensures PageComplete(p, wanted', excused)
  {
  }

  lemma ReloadOwes(s: System, load: ClientStore.Load, excused: set<nat>)
    requires Sound(s) && Owes(s, excused)
    ensures Owes(Reload(s, load), excused)
  {
    var s', user := Reload(s, load), ClientStore.LoadedUser(s.page.client, load);
    ReloadCursors(s.page, load);
    if Recalls(s, load) {
      if user != s.page.client.userId {
        NewUserWantsNoMore(s.posted, user, s.page.client.userId, s.owedAbove);
      }
      ReadCacheIsComplete(s.page, load, s'.page, Wanted(s), excused);
      LessWanted(s'.page, Wanted(s), Wanted(s'), excused);
    } else {
      NothingWantedBelow(s.page, load, s'.page, Wanted(s'), excused);
    }
  }

  // ---- Every step ----

  lemma StepIsSound(s: System, e: Event, limits: Limits)
    requires Sound(s) && Compatible(limits)
    ensures Sound(Step(s, e, limits))
  {
    match e {
      case Posts(root, env, sendOk) =>
        if ValidateChat(root, limits).Accept? {
          PostIsSound(s, root, env, sendOk, limits);
        }
      case Device(d) =>
        if !d.Stores? {
          DeviceStepFacts(s.device, s.posted, d);
          UnpublishedIsSound(s, DeviceRuns.Step(s.device, d), Step(s, e, limits).link);
        }
      case Connects =>
      case Joins(read, reload, sends, synced) =>
        if s.link.Opening? {
          JoinIsSound(s, read, reload, sends, synced, Step(s, e, limits));
        }
      case Delivers(messagesSaved, cursorSaved) =>
        if s.link.Up? && s.link.stream != [] {
          DeliverIsSound(s, messagesSaved, cursorSaved, Step(s, e, limits));
        }
      case Cuts(arriving) => CutIsSound(s, arriving);
      case Drops =>
      case Imports(candidate, source, restoreBefore, saved) =>
        ImportIsSound(s, ClientStore.Imports(candidate, source, restoreBefore, saved), Step(s, e, limits).page);
      case Reloads(load) => ReloadIsSound(s, load);
    }
  }

  /** Every step but a join keeps what the page owes under any excuses. */
  lemma StepOwes(s: System, e: Event, limits: Limits, excused: set<nat>)
    requires Sound(s) && Owes(s, excused) && Compatible(limits) && !(e.Joins? && s.link.Opening?)
    ensures Owes(Step(s, e, limits), excused)
  {
    match e {
      case Posts(root, env, sendOk) =>
        if ValidateChat(root, limits).Accept? {
          PostOwes(s, root, env, sendOk, limits, excused);
        }
      case Device(d) =>
        if !d.Stores? {
          DeviceStepFacts(s.device, s.posted, d);
          UnpublishedOwes(s, DeviceRuns.Step(s.device, d), Step(s, e, limits).link, excused);
        }
      case Delivers(messagesSaved, cursorSaved) =>
        if s.link.Up? && s.link.stream != [] {
          DeliverOwes(s, messagesSaved, cursorSaved, Step(s, e, limits), excused);
        }
      case Cuts(arriving) => CutOwes(s, arriving, excused);
      case Imports(candidate, source, restoreBefore, saved) =>
        ImportOwes(s, ClientStore.Imports(candidate, source, restoreBefore, saved), Step(s, e, limits).page, excused);
      case Reloads(load) => ReloadOwes(s, load, excused);
      case _ =>
    }
  }

  lemma OnlyJoinsExcuse(s: System, e: Event, limits: Limits)
    requires Sound(s) && Compatible(limits) && !(e.Joins? && s.link.Opening?)
    ensures Step(s, e, limits).excused == s.excused
  {
  }

  lemma StepIsValid(s: System, e: Event, limits: Limits)
    requires Valid(s) && Compatible(limits)
    ensures Valid(Step(s, e, limits))
  {
    StepIsSound(s, e, limits);
    if e.Joins? && s.link.Opening? {
      JoinExcuses(s, e.read, e.reload, e.sends, e.synced, Step(s, e, limits));
    } else {
      StepOwes(s, e, limits, s.excused);
      OnlyJoinsExcuse(s, e, limits);
    }
  }

  lemma {:induction false} RunIsValid(setup: Setup, events: seq<Event>)
    requires setup.start.size > 0 && Compatible(setup.limits)
    ensures Valid(Run(setup, events))
  {
    if events == [] {
      DeviceRuns.BootIsSound(setup.start.size, ERASED, setup.start.read, setup.start.write, []);
    } else {
      RunIsValid(setup, events[..|events| - 1]);
      StepIsValid(Run(setup, events[..|events| - 1]), events[|events| - 1], setup.limits);
    }
  }

  // ---- The guarantees ----

  /**
   Gap freedom: in every run each id the server has assigned up to the browser's replay cursor was
   received by the browser, or had left the ring when the browser joined with a cursor below it.
   */
  lemma NoMessageIsSkipped(setup: Setup, events: seq<Event>)
    requires setup.start.size > 0 && Compatible(setup.limits)
    ensures var s := Run(setup, events);
            forall id :: id in s.device.published && id <= s.page.client.lastSeenId ==>
                           id in s.delivered || id in s.excused
  {
    RunIsValid(setup, events);
    CursorIsComplete(Run(setup, events));
    PostedIsPublished(Run(setup, events));
  }

  lemma PostedIsPublished(s: System)
    requires Valid(s)
    ensures forall id :: id in s.device.published <==> id in s.posted
  {
    assert forall id :: id in s.device.published <==> id in PublishedIds(s.device);
  }

  /**
   The same for what is kept, in every run, with imports, reloads and failing reads and writes of storage
   at any point: each message the server has assigned an id up to the stored cursor, and that is for the
   user, is in the stored snapshot, unless the cap pushed it out, or it had left the ring when the browser
   joined with a cursor below it. So is each message received: one that a reload forgets before it was
   written is above the cursor that the reload restores, and is sent again. The promise starts anew above
   the cursors, when a page cannot read the cache or goes by a user id that messages named already.
   */
  lemma StoredCursorIsHonest(setup: Setup, events: seq<Event>)
    requires setup.start.size > 0 && Compatible(setup.limits)
    ensures var s := Run(setup, events);
            && s.page.received <= s.posted.Keys == PublishedIds(s.device)
            && forall id :: id in s.posted && s.owedAbove < id <= s.page.client.storedCursor
                            && ClientStore.IsFor(s.posted[id], s.page.client.userId) ==>
                              || id in ClientStore.Ids(s.page.client.snapshot)
                              || id in s.page.pushedOut || id in s.excused
  {
    RunIsValid(setup, events);
    StorageIsComplete(Run(setup, events));
  }

  lemma StorageIsComplete(s: System)
    requires Valid(s)
    ensures forall id :: id in s.posted && s.owedAbove < id <= s.page.client.storedCursor
                         && ClientStore.IsFor(s.posted[id], s.page.client.userId) ==>
                           id in ClientStore.Ids(s.page.client.snapshot) || id in s.page.pushedOut || id in s.excused
  {
    assert forall id :: id in s.posted && id > s.owedAbove && ClientStore.IsFor(s.posted[id], s.page.client.userId) ==>
                          id in Wanted(s);
  }

  /** While the server keeps sending, a browser that has read everything in flight has every message there is. */
  lemma CaughtUp(setup: Setup, events: seq<Event>)
    requires setup.start.size > 0 && Compatible(setup.limits)
    requires Run(setup, events).link == Up([], true)
    ensures var s := Run(setup, events); forall id :: id in s.device.published ==> id in s.delivered || id in s.excused
  {
    RunIsValid(setup, events);
    PostedIsPublished(Run(setup, events));
  }

  /** A relayed history response is older than every message in the ring, at any moment of any run. */
  lemma RelayedHistoryIsBelowRing(start: DeviceRuns.Start, events: seq<DeviceRuns.Event>, root: Fields, limits: Limits)
    requires start.size > 0
    ensures var d := DeviceRuns.Run(start, events);
            && d.log.counter >= d.base
            && var verdict := HandleHistoryResponse(root, DeviceRuns.RestoreBefore(d), limits);
               verdict.Accept? ==>
                 && "message" in verdict.root && verdict.root["message"].Obj?
                 && HistoryHead(verdict.root["message"].fields)
                 && forall id :: id in RingIds(d.log.buffer) ==> verdict.root["message"].fields["id"].n < id
  {
    DeviceRuns.RunIsSound(start, events);
    var d := DeviceRuns.Run(start, events);
    if HandleHistoryResponse(root, DeviceRuns.RestoreBefore(d), limits).Accept? {
      RelayedHistoryIsOld(root, DeviceRuns.RestoreBefore(d), limits);
      RingNotBelowBoundary(d);
    }
  }

  lemma RingNotBelowBoundary(d: DeviceRuns.Device)
    requires DeviceRuns.Sound(d)
    ensures forall id :: id in RingIds(d.log.buffer) ==> DeviceRuns.RestoreBefore(d) <= id
  {
    var size := |d.log.buffer|;
    forall id | id in RingIds(d.log.buffer) ensures DeviceRuns.RestoreBefore(d) <= id {
      var j :| 0 <= j < size && d.log.buffer[j].Some? && d.log.buffer[j].value.id == id;
      assert SlotHolds(d.log.buffer[j], j, size, d.base, d.messages);
    }
  }
}
