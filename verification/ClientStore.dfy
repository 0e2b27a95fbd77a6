/**
 The browser's message cache and replay cursor, in memory and in local storage. Every storage write
 and every read at the start of a page may fail, and the page may be reloaded at any time, which
 leaves only what was written.
 */
module ClientStore {
  import opened Arithmetic
  import opened ChatTypes
  import opened Json
  import opened ChatProtocol

  const MAX_LOCAL_MESSAGES := 2000
  const SERVER: Text := [0x73, 0x65, 0x72, 0x76, 0x65, 0x72]

  /** A cached message. `recovered` marks history imported from another browser. */
  datatype Entry = Entry(id: nat, recovered: bool, content: Fields)

  datatype Client = Client(
    userId: Text,
    storedUser: Option<Text>, // storage: the user id
    allMessages: seq<Entry>,
    lastSeenId: nat,
    snapshot: seq<Entry>,     // storage: the cached messages
    storedCursor: nat)        // storage: the replay cursor

  // ---- Sorting and retention ----

  function Insert(e: Entry, s: seq<Entry>): seq<Entry> {
    if s == [] || e.id <= s[0].id then [e] + s else [s[0]] + Insert(e, s[1..])
  }

  /** A stable sort by id. */
  function SortById(s: seq<Entry>): seq<Entry> {
    if s == [] then [] else Insert(s[0], SortById(s[1..]))
  }

  predicate Sorted(s: seq<Entry>) {
    forall i, j :: 0 <= i < j < |s| ==> s[i].id <= s[j].id
  }

  function Live(s: seq<Entry>): seq<Entry> {
    if s == [] then [] else (if s[0].recovered then [] else [s[0]]) + Live(s[1..])
  }

  function Recovered(s: seq<Entry>): seq<Entry> {
    if s == [] then [] else (if s[0].recovered then [s[0]] else []) + Recovered(s[1..])
  }

  function Last(s: seq<Entry>, n: nat): seq<Entry>
    requires n <= |s|
  {
    s[|s| - n..]
  }

  /** How many live messages a full cache keeps: what restored history leaves, but at least half. */
  function RegularSlots(regular: nat, recovered: nat): (n: nat) {
    Min(regular, Max(MAX_LOCAL_MESSAGES - recovered, (MAX_LOCAL_MESSAGES + 1) / 2))
  }

  function Retain(messages: seq<Entry>): seq<Entry> {
    var sorted := SortById(messages);
    if |sorted| <= MAX_LOCAL_MESSAGES then sorted
    else
      var recovered, regular := Recovered(sorted), Live(sorted);
      SplitLength(sorted);
      var regularSlots := RegularSlots(|regular|, |recovered|);
      SortById(Last(regular, regularSlots) + Last(recovered, MAX_LOCAL_MESSAGES - regularSlots))
  }

  lemma {:induction false} SplitLength(s: seq<Entry>)
    ensures |Live(s)| + |Recovered(s)| == |s|
    ensures forall e :: e in s <==> e in Live(s) || e in Recovered(s)
    ensures forall e :: e in Live(s) ==> !e.recovered
    ensures forall e :: e in Recovered(s) ==> e.recovered
  {
    if s != [] {
      SplitLength(s[1..]);
    }
  }

  lemma {:induction false} InsertFacts(e: Entry, s: seq<Entry>)
    ensures |Insert(e, s)| == |s| + 1
    ensures forall x :: x in Insert(e, s) <==> x == e || x in s
    ensures Sorted(s) ==> Sorted(Insert(e, s))
  {
    if s != [] && s[0].id < e.id {
      InsertFacts(e, s[1..]);
      var t := Insert(e, s[1..]);
      if Sorted(s) {
        forall x | x in t ensures s[0].id <= x.id {
          if x in s[1..] {
            var k :| 0 <= k < |s[1..]| && s[1..][k] == x;
            assert s[k + 1] == x;
          }
        }
        assert forall k :: 0 <= k < |t| ==> t[k] in t;
      }
    }
  }

  lemma {:induction false} SortFacts(s: seq<Entry>)
    ensures |SortById(s)| == |s| && Sorted(SortById(s))
    ensures forall x :: x in SortById(s) <==> x in s
  {
    if s != [] {
      SortFacts(s[1..]);
      InsertFacts(s[0], SortById(s[1..]));
    }
  }

  lemma {:induction false} SortOfSorted(s: seq<Entry>)
    requires Sorted(s)
    ensures SortById(s) == s
  {
    if s != [] {
      SortOfSorted(s[1..]);
    }
  }

  lemma LiveOfCons(s: seq<Entry>)
    requires s != []
    ensures s[0].recovered ==> Live(s) == Live(s[1..])
    ensures !s[0].recovered ==> Live(s) == [s[0]] + Live(s[1..]) && Live(s)[1..] == Live(s[1..])
  {
  }

  lemma {:induction false} LiveOfInsert(e: Entry, s: seq<Entry>)
    requires Sorted(s)
    ensures Live(Insert(e, s)) == if e.recovered then Live(s) else Insert(e, Live(s))
  {
    if s == [] {
    } else if e.id <= s[0].id {
      assert Insert(e, s)[1..] == s;
      LiveNotBefore(s, e.id);
    } else {
      assert Insert(e, s)[1..] == Insert(e, s[1..]);
      LiveOfInsert(e, s[1..]);
      LiveOfCons(s);
      LiveOfCons(Insert(e, s));
    }
  }

  lemma LiveNotBefore(s: seq<Entry>, id: nat)
    requires Sorted(s) && s != [] && id <= s[0].id
    ensures Live(s) != [] ==> id <= Live(s)[0].id
  {
    SplitLength(s);
    if Live(s) != [] {
      assert Live(s)[0] in s;
    }
  }

  lemma {:induction false} LiveOfSort(s: seq<Entry>)
    ensures Live(SortById(s)) == SortById(Live(s))
  {
    if s != [] {
      LiveOfSort(s[1..]);
      SortFacts(s[1..]);
      LiveOfInsert(s[0], SortById(s[1..]));
      LiveOfCons(s);
    }
  }

  lemma {:induction false} NoneLive(s: seq<Entry>)
    requires forall e :: e in s ==> e.recovered
    ensures Live(s) == []
  {
    if s != [] {
      NoneLive(s[1..]);
    }
  }

  lemma {:induction false} LiveOfConcat(a: seq<Entry>, b: seq<Entry>)
    requires (forall e :: e in a ==> !e.recovered) && forall e :: e in b ==> e.recovered
    ensures Live(a + b) == a
  {
    if a == [] {
      assert a + b == b;
      NoneLive(b);
    } else {
      assert (a + b)[1..] == a[1..] + b;
      LiveOfConcat(a[1..], b);
    }
  }

  lemma {:induction false} LiveKeepsOrder(s: seq<Entry>)
    requires Sorted(s)
    ensures Sorted(Live(s))
  {
    LiveOfSort(s);
    SortOfSorted(s);
    SortFacts(Live(s));
  }

  /**
   Retention keeps exactly min(n, 2000) of the n cached messages, sorted by id. The live ones it
   keeps are a newest suffix of all live ones: all of them, or at least 1000, so the newest live
   message always survives. Of the restored ones it keeps the newest, and drops some only if that
   leaves no more than 1000 live ones.
   */
  lemma RetentionKeepsNewestLive(messages: seq<Entry>)
    ensures var kept := Retain(messages);
            && |kept| == Min(|messages|, MAX_LOCAL_MESSAGES)
            && Sorted(kept)
            && (forall e :: e in kept ==> e in messages)
            && forall e, f :: e in kept && e.recovered && f in messages && f.recovered && f !in kept ==> f.id <= e.id
    ensures var kept, n := Retain(messages), |Live(Retain(messages))|;
            && n <= |Live(SortById(messages))| == |Live(messages)|
            && Live(kept) == Last(Live(SortById(messages)), n)
            && (n == |Live(messages)| || n >= 1000)
            && (|Recovered(kept)| < |Recovered(messages)| ==> n <= 1000)
  {
    RetainFacts(messages);
    LiveOfSort(messages);
    SortFacts(Live(messages));
    SortFacts(messages);
    SplitLength(messages);
    SplitLength(SortById(messages));
    SplitLength(Retain(messages));
    var n := LiveOfRetain(messages);
    NewestRestored(messages);
  }

  lemma {:induction false} RecoveredKeepsOrder(s: seq<Entry>)
    requires Sorted(s)
    ensures Sorted(Recovered(s))
  {
    if s != [] {
      RecoveredKeepsOrder(s[1..]);
      SplitLength(s[1..]);
      var t := Recovered(s[1..]);
      forall i | 0 <= i < |t| ensures s[0].id <= t[i].id {
        assert t[i] in s[1..];
      }
    }
  }

  /** No restored message that is dropped is newer than one that is kept. */
  lemma NewestRestored(messages: seq<Entry>)
    ensures forall e, f ::
              e in Retain(messages) && e.recovered && f in messages && f.recovered && f !in Retain(messages) ==>
                f.id <= e.id
  {
    var sorted := SortById(messages);
    SortFacts(messages);
    if |sorted| > MAX_LOCAL_MESSAGES {
      SplitLength(sorted);
      var live, recovered := Live(sorted), Recovered(sorted);
      RecoveredKeepsOrder(sorted);
      var n := RegularSlots(|live|, |recovered|);
      var a, b := Last(live, n), Last(recovered, MAX_LOCAL_MESSAGES - n);
      SortFacts(a + b);
      forall e: Entry, f: Entry | e in a + b && e.recovered && f in recovered && f !in a + b ensures f.id <= e.id {
        LastAreNewest(recovered, MAX_LOCAL_MESSAGES - n, e, f);
      }
    }
  }

  lemma LastAreNewest(s: seq<Entry>, n: nat, e: Entry, f: Entry)
    requires Sorted(s) && n <= |s| && e in Last(s, n) && f in s && f !in Last(s, n)
    ensures f.id <= e.id
  {
    assert s == s[..|s| - n] + Last(s, n);
    var i :| 0 <= i < |s| - n && s[i] == f;
    var j :| 0 <= j < n && Last(s, n)[j] == e;
    assert s[|s| - n + j] == e;
  }

  lemma RetainFacts(messages: seq<Entry>)
    ensures var kept := Retain(messages);
            && |kept| == Min(|messages|, MAX_LOCAL_MESSAGES)
            && Sorted(kept)
            && (forall e :: e in kept ==> e in messages)
  {
    var sorted := SortById(messages);
    SortFacts(messages);
    if |sorted| > MAX_LOCAL_MESSAGES {
      SplitLength(sorted);
      var live, recovered := Live(sorted), Recovered(sorted);
      var n := RegularSlots(|live|, |recovered|);
      var a, b := Last(live, n), Last(recovered, MAX_LOCAL_MESSAGES - n);
      SortFacts(a + b);
      forall e | e in a + b ensures e in messages {
        assert e in live || e in recovered;
      }
    }
  }

  lemma LiveOfParts(a: seq<Entry>, b: seq<Entry>)
    requires Sorted(a) && (forall e :: e in a ==> !e.recovered) && forall e :: e in b ==> e.recovered
    ensures Live(SortById(a + b)) == a
  {
    LiveOfConcat(a, b);
    LiveOfSort(a + b);
    SortOfSorted(a);
  }

  lemma LiveOfRetain(messages: seq<Entry>) returns (n: nat)
    ensures n <= |Live(SortById(messages))|
    ensures Live(Retain(messages)) == Last(Live(SortById(messages)), n)
    ensures var live, recovered := |Live(SortById(messages))|, |Recovered(SortById(messages))|;
            n == if |messages| <= MAX_LOCAL_MESSAGES then live else RegularSlots(live, recovered)
  {
    var sorted := SortById(messages);
    SortFacts(messages);
    var live := Live(sorted);
    if |sorted| <= MAX_LOCAL_MESSAGES {
      n := |live|;
    } else {
      SplitLength(sorted);
      var recovered := Recovered(sorted);
      n := RegularSlots(|live|, |recovered|);
      var a, b := Last(live, n), Last(recovered, MAX_LOCAL_MESSAGES - n);
      LiveKeepsOrder(sorted);
      LiveOfParts(a, b);
    }
  }

  // ---- The cache and the cursor ----

  function SaveMessages(c: Client, saved: bool): Client {
    var kept := Retain(c.allMessages);
    c.(allMessages := kept, snapshot := if saved then kept else c.snapshot)
  }

  function RememberSeenId(c: Client, id: nat, saved: bool): Client {
    if id > c.lastSeenId then c.(lastSeenId := id, storedCursor := if saved then id else c.storedCursor)
    else c
  }

  predicate ForMe(userId: Text, msg: Fields) {
    IsText(Get(msg, "from"), SERVER) || ClientVisible(msg, userId)
  }

  /** Whom a message is for, by its fields: its sender, everyone, or those it names; the server's are for all. */
  ghost predicate IsFor(msg: Fields, user: Text) {
    var from, to := Get(msg, "from"), Get(msg, "to");
    || from == Some(Str(user)) || from == Some(Str(SERVER))
    || (to.Some? && to.value.Obj?
        && (Get(to.value.fields, "all") == Some(Bool(true))
            || exists names :: Get(to.value.fields, "users") == Some(Arr(names)) && Str(user) in names))
  }

  lemma ForMeIsFor(userId: Text, msg: Fields)
    ensures ForMe(userId, msg) <==> IsFor(msg, userId)
  {
    if "to" in msg && msg["to"].Obj? && Contains(Get(msg["to"].fields, "users"), userId) {
      assert Get(msg["to"].fields, "users") == Some(Arr(msg["to"].fields["users"].items));
    }
  }

  /** The browser keeps what the server lets its user see, and what the server itself sends. */
  lemma IsForMeansVisible(msg: Fields, user: Text)
    requires ValidHistoryMessage(msg) && user != []
    ensures IsFor(msg, user) <==> VisibleToUser(msg, user) || Get(msg, "from") == Some(Str(SERVER))
  {
    ForMeIsFor(user, msg);
    VisibilityAgrees(msg, user);
  }

  predicate HasId(s: seq<Entry>, id: nat) {
    exists i :: 0 <= i < |s| && s[i].id == id
  }

  /** JavaScript truthiness of an optional property. */
  predicate Truthy(v: Option<Json>) {
    v.Some? &&
    match v.value
    case Null => false
    case Bool(b) => b
    case Num(n) => n != 0
    case Str(s) => s != []
    case _ => true
  }

  function FromWire(msg: Fields): Entry
    requires ValidHistoryMessage(msg)
  {
    Entry(msg["id"].n, Truthy(Get(msg, "recovered")), msg)
  }

  /** One incoming chat message; the flags say whether the two storage writes succeed. */
  function SaveIncoming(c: Client, msg: Fields, messagesSaved: bool, cursorSaved: bool): Client {
    if !ValidHistoryMessage(msg) then c
    else
      var e := FromWire(msg);
      var c1 := if !ForMe(c.userId, msg) || HasId(c.allMessages, e.id) then c
                else c.(allMessages := c.allMessages + [e]);
      var c2 := SaveMessages(c1, messagesSaved);
      if messagesSaved then RememberSeenId(c2, e.id, cursorSaved) else c2
  }

  function KeepValid(s: seq<Entry>): seq<Entry> {
    if s == [] then [] else (if ValidHistoryMessage(s[0].content) then [s[0]] else []) + KeepValid(s[1..])
  }

  function MaxId(s: seq<Entry>): nat {
    if s == [] then 0 else Max(s[0].id, MaxId(s[1..]))
  }

  /**
   What the outside decides about the start of a page: the user id it generates if it has to, which
   reads of storage succeed (a cache that cannot be parsed counts as unread), and which writes do.
   */
  datatype Load = Load(
    generated: Text,
    readUser: bool,
    readCache: bool,
    readCursor: bool,
    userSaved: bool,
    messagesSaved: bool,
    cursorSaved: bool)

  predicate FindsUser(c: Client, load: Load) {
    load.readUser && c.storedUser.Some?
  }

  function LoadedUser(c: Client, load: Load): Text {
    if FindsUser(c, load) then c.storedUser.value else load.generated
  }

  function LoadedCache(c: Client, load: Load): seq<Entry> {
    if load.readCache then KeepValid(c.snapshot) else []
  }

  /** The cursor in memory: the stored one, or the largest live id if that is larger. */
  function LoadedCursor(c: Client, load: Load): nat {
    Max(if load.readCursor then c.storedCursor else 0, MaxId(Live(LoadedCache(c, load))))
  }

  /** The start of a page: everything comes from storage, as far as it can be read, then is written back. */
  function LoadState(c: Client, load: Load): Client {
    var c1 := c.(userId := LoadedUser(c, load),
                 storedUser := if !FindsUser(c, load) && load.userSaved then Some(load.generated) else c.storedUser,
                 allMessages := LoadedCache(c, load),
                 lastSeenId := LoadedCursor(c, load));
    var c2 := SaveMessages(c1, load.messagesSaved);
    if load.messagesSaved && load.cursorSaved then c2.(storedCursor := c2.lastSeenId) else c2
  }

  // ---- Messages restored from another browser ----

  /** The fields that a restored message keeps besides its target. */
  const KEPT_KEYS: set<string> :=
    {"type", "from", "name", "data", "id", "timestamp", "groupId", "groupName"}

  function RestoredTarget(to: Fields): Fields
    requires "all" in to && "users" in to
  {
    map["all" := to["all"], "users" := to["users"]]
  }

  /** The browser a message was restored from, and when. */
  datatype Source = Source(from: Json, name: Json, at: int)

  function Marks(source: Source): Fields {
    map["recovered" := Bool(true), "recoveredFrom" := source.from, "recoveredFromName" := source.name,
        "recoveredAt" := Num(source.at)]
  }

  function KeptFields(msg: Fields): Fields {
    map key | key in msg && key in KEPT_KEYS :: msg[key]
  }

  /** What a restored message is stored as: its known fields, and where it came from. */
  function RecoveredPayload(msg: Fields, source: Source): Fields
    requires ValidHistoryMessage(msg)
  {
    KeptFields(msg) + Marks(source) + map["to" := Obj(RestoredTarget(msg["to"].fields))]
  }

  predicate SameButTarget(a: Fields, b: Fields) {
    && Get(a, "id") == Get(b, "id") && Get(a, "type") == Get(b, "type") && Get(a, "from") == Get(b, "from")
    && Get(a, "name") == Get(b, "name") && Get(a, "timestamp") == Get(b, "timestamp")
    && Get(a, "data") == Get(b, "data")
    && Get(a, "groupId") == Get(b, "groupId") && Get(a, "groupName") == Get(b, "groupName")
  }

  /** The check looks at these fields only. */
  lemma SameChecks(a: Fields, b: Fields)
    requires ValidHistoryMessage(a) && SameButTarget(a, b) && ValidMessageTarget(Get(b, "to"))
    ensures ValidHistoryMessage(b)
  {
  }

  lemma KeptFieldsAreKept(msg: Fields, marks: Fields, to: Fields)
    requires marks.Keys !! KEPT_KEYS && to.Keys == {"to"}
    ensures SameButTarget(msg, KeptFields(msg) + marks + to)
  {
  }

  lemma TargetStaysValid(to: Fields)
    requires ValidMessageTarget(Some(Obj(to)))
    ensures ValidMessageTarget(Some(Obj(RestoredTarget(to))))
  {
  }

  lemma SameAudience(a: Fields, b: Fields, userId: Text)
    requires Get(a, "from") == Get(b, "from") && "to" in a && a["to"].Obj? && "to" in b && b["to"].Obj?
    requires Get(a["to"].fields, "all") == Get(b["to"].fields, "all")
    requires Get(a["to"].fields, "users") == Get(b["to"].fields, "users")
    ensures ForMe(userId, a) <==> ForMe(userId, b)
  {
  }

  lemma RestoredFields(msg: Fields, source: Source)
    requires ValidHistoryMessage(msg)
    ensures SameButTarget(msg, RecoveredPayload(msg, source))
    ensures Get(RecoveredPayload(msg, source), "to") == Some(Obj(RestoredTarget(msg["to"].fields)))
  {
    KeptFieldsAreKept(msg, Marks(source), map["to" := Obj(RestoredTarget(msg["to"].fields))]);
  }

  lemma SameMessage(a: Fields, b: Fields, userId: Text)
    requires ValidHistoryMessage(a) && SameButTarget(a, b)
    requires Get(b, "to") == Some(Obj(RestoredTarget(a["to"].fields)))
    ensures ValidHistoryMessage(b) && b["id"] == a["id"]
    ensures ForMe(userId, b) <==> ForMe(userId, a)
  {
    TargetStaysValid(a["to"].fields);
    SameChecks(a, b);
    SameAudience(a, b, userId);
  }

  /** A restored message passes the check again when the page is reloaded, and is for the same users. */
  lemma RestoredStaysValid(msg: Fields, source: Source, userId: Text)
    requires ValidHistoryMessage(msg)
    ensures ValidHistoryMessage(RecoveredPayload(msg, source)) && RecoveredPayload(msg, source)["id"] == msg["id"]
    ensures IsFor(RecoveredPayload(msg, source), userId) <==> IsFor(msg, userId)
  {
    ForMeIsFor(userId, msg);
    ForMeIsFor(userId, RecoveredPayload(msg, source));
    RestoredFields(msg, source);
    SameMessage(msg, RecoveredPayload(msg, source), userId);
  }

  function Restored(candidate: Fields, source: Source): Entry
    requires ValidHistoryMessage(candidate)
  {
    Entry(candidate["id"].n, true, RecoveredPayload(candidate, source))
  }

  /** Whether a message from another browser is taken; `restoreBefore` is the server's boundary. */
  predicate Importable(c: Client, candidate: Fields, restoreBefore: nat) {
    && ValidHistoryMessage(candidate) && ForMe(c.userId, candidate)
    && 1 < restoreBefore && candidate["id"].n < restoreBefore && !HasId(c.allMessages, candidate["id"].n)
  }

  function ImportRecovered(c: Client, candidate: Fields, source: Source, restoreBefore: nat, saved: bool): Client {
    if !Importable(c, candidate, restoreBefore) then c
    else SaveMessages(c.(allMessages := c.allMessages + [Restored(candidate, source)]), saved)
  }

  /** The globals and the storage keys that these functions share. */
  class Page {
    var userId: Text
    var storedUser: Option<Text>
    var allMessages: seq<Entry>
    var lastSeenId: nat
    var snapshot: seq<Entry>
    var storedCursor: nat

    function State(): Client
      reads this
    {
      Client(userId, storedUser, allMessages, lastSeenId, snapshot, storedCursor)
    }

    constructor (stored: Option<Text>, messages: seq<Entry>, cursor: nat, load: Load)
      ensures State() == LoadState(Client([], stored, [], 0, messages, cursor), load)
    {
      storedUser, snapshot, storedCursor := stored, messages, cursor;
      userId, allMessages, lastSeenId := [], [], 0;
      new;
      LoadUser(load);
      Load(load);
    }

    method Save(saved: bool)
      modifies this`allMessages, this`snapshot
      ensures State() == SaveMessages(old(State()), saved)
    {
      var sorted := SortById(allMessages);
      if |sorted| > MAX_LOCAL_MESSAGES {
        var recovered, regular := Recovered(sorted), Live(sorted);
        SplitLength(sorted);
        var regularSlots := RegularSlots(|regular|, |recovered|);
        var recoveredSlots := MAX_LOCAL_MESSAGES - regularSlots;
        allMessages := SortById(Last(regular, regularSlots) + Last(recovered, recoveredSlots));
      } else {
        allMessages := sorted;
      }
      if saved {
        snapshot := allMessages;
      }
    }

    method Remember(id: nat, saved: bool)
      modifies this
      ensures State() == RememberSeenId(old(State()), id, saved)
    {
      if id > lastSeenId {
        lastSeenId := id;
        if saved {
          storedCursor := lastSeenId;
        }
      }
    }

    method SaveIncomingMessage(msg: Fields, messagesSaved: bool, cursorSaved: bool) returns (isNew: bool)
      modifies this
      ensures State() == SaveIncoming(old(State()), msg, messagesSaved, cursorSaved)
      ensures isNew <==> ValidHistoryMessage(msg) && IsFor(msg, old(userId)) && !HasId(old(allMessages), msg["id"].n)
    {
      ForMeIsFor(userId, msg);
      if !ValidHistoryMessage(msg) {
        return false;
      }
      var id := msg["id"].n;
      if !ForMe(userId, msg) || HasId(allMessages, id) {
        Save(messagesSaved);
        if messagesSaved {
          Remember(id, cursorSaved);
        }
        return false;
      }
      allMessages := allMessages + [FromWire(msg)];
      Save(messagesSaved);
      if messagesSaved {
        Remember(id, cursorSaved);
      }
      return true;
    }

    method LoadUser(load: Load)
      modifies this`userId, this`storedUser
      ensures userId == LoadedUser(old(State()), load)
      ensures storedUser == if !FindsUser(old(State()), load) && load.userSaved then Some(load.generated)
                            else old(storedUser)
    {
      if load.readUser && storedUser.Some? {
        userId := storedUser.value;
        return;
      }
      userId := load.generated;
      if load.userSaved {
        storedUser := Some(userId);
      }
    }

    method Load(load: Load)
      modifies this`allMessages, this`lastSeenId, this`snapshot, this`storedCursor
      ensures State() == LoadState(old(State()), load).(userId := old(userId), storedUser := old(storedUser))
    {
      allMessages := if load.readCache then KeepValid(snapshot) else [];
      lastSeenId := if load.readCursor then storedCursor else 0;
      var localMaxId := 0;
      var live := Live(allMessages);
      for i := 0 to |live|
        invariant Max(localMaxId, MaxId(live[i..])) == MaxId(live)
      {
        assert live[i..][1..] == live[i + 1..];
        if live[i].id > localMaxId {
          localMaxId := live[i].id;
        }
      }
      lastSeenId := Max(lastSeenId, localMaxId);
      Save(load.messagesSaved);
      if load.messagesSaved && load.cursorSaved {
        storedCursor := lastSeenId;
      }
    }

    method Import(candidate: Fields, source: Source, restoreBefore: nat, saved: bool)
      modifies this
      ensures State() == ImportRecovered(old(State()), candidate, source, restoreBefore, saved)
    {
      if !ValidHistoryMessage(candidate) || !ForMe(userId, candidate) {
        return;
      }
      var id := candidate["id"].n;
      if restoreBefore <= 1 || id >= restoreBefore || HasId(allMessages, id) {
        return;
      }
      allMessages := allMessages + [Restored(candidate, source)];
      Save(saved);
    }
  }

  // ---- What storage owes to the messages received ----

  /**
   A browser over many page loads: `received` holds the ids of the messages for its user it ever
   received from the server, `pushedOut` what the cap removed, and `lastSaveOk` says whether the
   last write of the cache succeeded.
   */
  datatype Session = Session(client: Client, received: set<nat>, pushedOut: set<nat>, lastSaveOk: bool)

  datatype Event =
    | Receives(msg: Fields, messagesSaved: bool, cursorSaved: bool)
    | Imports(candidate: Fields, source: Source, restoreBefore: nat, saved: bool)
    | Reloads(load: Load)

  function Ids(s: seq<Entry>): set<nat> {
    set i | 0 <= i < |s| :: s[i].id
  }

  /** What retention removes when `before` is saved. */
  function Cut(before: seq<Entry>): set<nat> {
    Ids(before) - Ids(Retain(before))
  }

  function Counts(c: Client, msg: Fields): bool {
    ValidHistoryMessage(msg) && ForMe(c.userId, msg)
  }

  function WithIncoming(c: Client, msg: Fields): seq<Entry> {
    if Counts(c, msg) && !HasId(c.allMessages, msg["id"].n) then c.allMessages + [FromWire(msg)] else c.allMessages
  }

  function CountedId(c: Client, msg: Fields): set<nat> {
    if Counts(c, msg) then {msg["id"].n} else {}
  }

  function Step(s: Session, e: Event): Session {
    match e
    case Receives(msg, messagesSaved, cursorSaved) =>
      if !ValidHistoryMessage(msg) then s
      else
        Session(SaveIncoming(s.client, msg, messagesSaved, cursorSaved),
                s.received + CountedId(s.client, msg),
                s.pushedOut + Cut(WithIncoming(s.client, msg)),
                messagesSaved)
    case Imports(candidate, source, restoreBefore, saved) =>
      if !Importable(s.client, candidate, restoreBefore) then s
      else
        s.(client := ImportRecovered(s.client, candidate, source, restoreBefore, saved),
           pushedOut := s.pushedOut + Cut(s.client.allMessages + [Restored(candidate, source)]),
           lastSaveOk := saved)
    case Reloads(load) =>
      s.(client := LoadState(s.client, load),
         pushedOut := s.pushedOut + Cut(LoadedCache(s.client, load)),
         lastSaveOk := load.messagesSaved)
  }

  /** Up to the stored cursor every received message is stored or was pushed out by the cap. */
  predicate Durable(s: Session) {
    forall id :: id in s.received && id <= s.client.storedCursor ==>
                   id in Ids(s.client.snapshot) || id in s.pushedOut
  }

  /** Every received message is in the cache or was pushed out. */
  predicate Cached(s: Session) {
    forall id :: id in s.received ==> id in Ids(s.client.allMessages) || id in s.pushedOut
  }

  predicate ValidEntries(s: seq<Entry>) {
    forall i :: 0 <= i < |s| ==> ValidHistoryMessage(s[i].content)
  }

  predicate Sound(s: Session) {
    && Durable(s) && Cached(s)
    && ValidEntries(s.client.snapshot) && ValidEntries(s.client.allMessages)
    && (s.lastSaveOk ==> s.client.snapshot == s.client.allMessages)
  }

  /** Messages arrive above the stored cursor, or at least get written. */
  predicate InOrder(c: Client, e: Event) {
    e.Receives? && Counts(c, e.msg) ==> e.messagesSaved || e.msg["id"].n > c.storedCursor
  }

  /** The new page reads from storage every received message that the cap has not pushed out. */
  predicate FindsCache(s: Session, load: Load) {
    forall id :: id in s.received ==> id in Ids(LoadedCache(s.client, load)) || id in s.pushedOut
  }

  lemma IdsOfSave(s: seq<Entry>)
    ensures Ids(s) == Ids(Retain(s)) + Cut(s)
    ensures ValidEntries(s) ==> ValidEntries(Retain(s))
  {
    var kept := Retain(s);
    RetainFacts(s);
    forall id | id in Ids(kept) ensures id in Ids(s) {
      var i :| 0 <= i < |kept| && kept[i].id == id;
      assert kept[i] in s;
    }
    if ValidEntries(s) {
      forall i | 0 <= i < |kept| ensures ValidHistoryMessage(kept[i].content) {
        assert kept[i] in s;
      }
    }
  }

  lemma RetainOfOne(e: Entry)
    ensures Retain([e]) == [e] && Cut([e]) == {}
  {
    assert SortById([e][1..]) == [];
  }

  lemma IdsOfAppend(s: seq<Entry>, e: Entry)
    ensures Ids(s + [e]) == Ids(s) + {e.id}
  {
    assert forall i :: 0 <= i < |s| ==> (s + [e])[i] == s[i];
    assert (s + [e])[|s|] == e;
  }

  lemma {:induction false} KeepValidAll(s: seq<Entry>)
    requires ValidEntries(s)
    ensures KeepValid(s) == s
  {
    if s != [] {
      KeepValidAll(s[1..]);
    }
  }

  lemma HasIdIsMember(s: seq<Entry>, id: nat)
    ensures HasId(s, id) <==> id in Ids(s)
  {
  }

  /** What saving the cache `all` does to a session that has now received `received`. */
  predicate Saves(s: Session, all: seq<Entry>, received: set<nat>, saved: bool, after: Session) {
    && after.client.allMessages == Retain(all)
    && after.client.snapshot == (if saved then Retain(all) else s.client.snapshot)
    && (!saved ==> after.client.storedCursor == s.client.storedCursor)
    && after.pushedOut == s.pushedOut + Cut(all)
    && after.received == received && after.lastSaveOk == saved
  }

  /** Saving a cache that accounts for every received message leaves storage in order. */
  lemma SaveIsSound(s: Session, all: seq<Entry>, received: set<nat>, saved: bool, after: Session)
    requires Saves(s, all, received, saved, after)
    requires ValidEntries(s.client.snapshot) && ValidEntries(all)
    requires forall id :: id in received ==> id in Ids(all) || id in s.pushedOut
    requires !saved ==> forall id :: id in received && id <= s.client.storedCursor ==>
                                       id in Ids(s.client.snapshot) || id in s.pushedOut
    ensures Sound(after)
  {
    IdsOfSave(all);
  }

  lemma IncomingIds(c: Client, msg: Fields)
    ensures Ids(WithIncoming(c, msg)) == Ids(c.allMessages) + CountedId(c, msg)
    ensures ValidEntries(c.allMessages) ==> ValidEntries(WithIncoming(c, msg))
  {
    if Counts(c, msg) {
      IdsOfAppend(c.allMessages, FromWire(msg));
      HasIdIsMember(c.allMessages, msg["id"].n);
    }
  }

  /** What receiving a valid message does to the session. */
  lemma ReceiveShape(s: Session, msg: Fields, messagesSaved: bool, cursorSaved: bool)
    requires ValidHistoryMessage(msg)
    ensures Saves(s, WithIncoming(s.client, msg), s.received + CountedId(s.client, msg), messagesSaved,
                  Step(s, Receives(msg, messagesSaved, cursorSaved)))
  {
  }

  lemma IncomingIsSound(s: Session, all: seq<Entry>, incoming: set<nat>, saved: bool, after: Session)
    requires Sound(s) && ValidEntries(all) && Ids(all) == Ids(s.client.allMessages) + incoming
    requires saved || forall id :: id in incoming ==> id > s.client.storedCursor
    requires Saves(s, all, s.received + incoming, saved, after)
    ensures Sound(after)
  {
    SaveIsSound(s, all, s.received + incoming, saved, after);
  }

  lemma ReceiveIsSound(s: Session, msg: Fields, messagesSaved: bool, cursorSaved: bool)
    requires Sound(s) && InOrder(s.client, Receives(msg, messagesSaved, cursorSaved))
    ensures Sound(Step(s, Receives(msg, messagesSaved, cursorSaved)))
  {
    if ValidHistoryMessage(msg) {
      ReceiveShape(s, msg, messagesSaved, cursorSaved);
      IncomingIds(s.client, msg);
      CountedIsAbove(s.client, msg, messagesSaved, cursorSaved);
      IncomingIsSound(s, WithIncoming(s.client, msg), CountedId(s.client, msg), messagesSaved,
                      Step(s, Receives(msg, messagesSaved, cursorSaved)));
    }
  }

  lemma CountedIsAbove(c: Client, msg: Fields, messagesSaved: bool, cursorSaved: bool)
    requires InOrder(c, Receives(msg, messagesSaved, cursorSaved))
    ensures messagesSaved || forall id :: id in CountedId(c, msg) ==> id > c.storedCursor
  {
  }

  /** What importing a message does to the session. */
  lemma ImportShape(s: Session, candidate: Fields, source: Source, restoreBefore: nat, saved: bool)
    requires Importable(s.client, candidate, restoreBefore)
    ensures Saves(s, s.client.allMessages + [Restored(candidate, source)], s.received, saved,
                  Step(s, Imports(candidate, source, restoreBefore, saved)))
  {
  }

  lemma ImportedIds(c: Client, candidate: Fields, source: Source)
    requires ValidHistoryMessage(candidate) && ValidEntries(c.allMessages)
    ensures var all := c.allMessages + [Restored(candidate, source)];
            Ids(c.allMessages) <= Ids(all) && ValidEntries(all)
  {
    IdsOfAppend(c.allMessages, Restored(candidate, source));
    RestoredStaysValid(candidate, source, []);
  }

  lemma ImportIsSound(s: Session, candidate: Fields, source: Source, restoreBefore: nat, saved: bool)
    requires Sound(s)
    ensures Sound(Step(s, Imports(candidate, source, restoreBefore, saved)))
  {
    if Importable(s.client, candidate, restoreBefore) {
      ImportShape(s, candidate, source, restoreBefore, saved);
      ImportedIds(s.client, candidate, source);
      SaveIsSound(s, s.client.allMessages + [Restored(candidate, source)], s.received, saved,
                  Step(s, Imports(candidate, source, restoreBefore, saved)));
    }
  }

  lemma LoadedIsValid(c: Client, load: Load)
    requires ValidEntries(c.snapshot)
    ensures LoadedCache(c, load) == (if load.readCache then c.snapshot else [])
    ensures ValidEntries(LoadedCache(c, load))
  {
    KeepValidAll(c.snapshot);
  }

  /** Where the cursors of a new page come from. */
  lemma LoadedCursors(c: Client, load: Load)
    ensures var after := LoadState(c, load);
            && after.userId == LoadedUser(c, load) && after.lastSeenId == LoadedCursor(c, load)
            && (after.storedCursor == c.storedCursor || after.storedCursor == after.lastSeenId)
            && (!load.messagesSaved ==> after.storedCursor == c.storedCursor)
  {
  }

  /** What a reload does to the session. */
  lemma ReloadShape(s: Session, load: Load)
    ensures Saves(s, LoadedCache(s.client, load), s.received, load.messagesSaved, Step(s, Reloads(load)))
  {
  }

  /**
   Exactly when a reload keeps the page's accounts (`Sound`): when the new page reads every received
   message that the cap has not pushed out.
   */
  lemma ReloadIsSoundExactly(s: Session, load: Load)
    requires Sound(s)
    ensures Sound(Step(s, Reloads(load))) <==> FindsCache(s, load)
  {
    var after := Step(s, Reloads(load));
    ReloadShape(s, load);
    LoadedIsValid(s.client, load);
    IdsOfSave(LoadedCache(s.client, load));
    if FindsCache(s, load) {
      SaveIsSound(s, LoadedCache(s.client, load), s.received, load.messagesSaved, after);
    } else {
      assert !Cached(after);
    }
  }

  /** After a successful write of the cache it does, if the cache can be read. */
  lemma GoodSaveFindsCache(s: Session, load: Load)
    requires Sound(s) && s.lastSaveOk && load.readCache
    ensures FindsCache(s, load)
  {
    LoadedIsValid(s.client, load);
  }

  /** Every step of the page keeps storage in order, whichever of its writes fail. */
  lemma StepIsSound(s: Session, e: Event)
    requires Sound(s) && InOrder(s.client, e) && (e.Reloads? ==> FindsCache(s, e.load))
    ensures Sound(Step(s, e))
  {
    match e {
      case Receives(msg, messagesSaved, cursorSaved) => ReceiveIsSound(s, msg, messagesSaved, cursorSaved);
      case Imports(candidate, source, restoreBefore, saved) =>
        ImportIsSound(s, candidate, source, restoreBefore, saved);
      case Reloads(load) => ReloadIsSoundExactly(s, load);
    }
  }

  /** A message that storage has not seen, and that the cap does not push out at once. */
  predicate FirstSeen(s: Session, msg: Fields) {
    && Counts(s.client, msg)
    && var id := msg["id"].n;
       id !in Ids(s.client.snapshot) && id !in s.pushedOut && id !in Cut(WithIncoming(s.client, msg))
  }

  /**
   Whether the last write succeeded and the next read does decide what a reload does: after a message
   that storage has not seen, it keeps the accounts if and only if the cache was written and can be read.
   */
  lemma ReloadAfterNewMessageExactly(s: Session, msg: Fields, saved: bool, cursorSaved: bool, load: Load)
    requires Sound(s) && FirstSeen(s, msg) && InOrder(s.client, Receives(msg, saved, cursorSaved))
    ensures var received := Step(s, Receives(msg, saved, cursorSaved));
            && Sound(received) && received.lastSaveOk == saved
            && (Sound(Step(received, Reloads(load))) <==> received.lastSaveOk && load.readCache)
  {
    var received := Step(s, Receives(msg, saved, cursorSaved));
    ReceiveIsSound(s, msg, saved, cursorSaved);
    ReceiveShape(s, msg, saved, cursorSaved);
    ReloadIsSoundExactly(received, load);
    LoadedIsValid(received.client, load);
    if saved && load.readCache {
      GoodSaveFindsCache(received, load);
    } else {
      assert msg["id"].n in received.received;
    }
  }

  // ---- What reaches the cache ----

  /**
   A valid message for the user, whoever else it is for, is in the cache and in storage once the cache has
   been written, or the cap has pushed it out, which takes a full cache; and it counts as received.
   */
  lemma ForUserIsStored(s: Session, msg: Fields, cursorSaved: bool)
    requires ValidHistoryMessage(msg) && IsFor(msg, s.client.userId)
    ensures var id, after := msg["id"].n, Step(s, Receives(msg, true, cursorSaved));
            && id in after.received && after.client.snapshot == after.client.allMessages
            && (id in Ids(after.client.snapshot) || id in after.pushedOut)
            && (|s.client.allMessages| < MAX_LOCAL_MESSAGES ==> id in Ids(after.client.snapshot))
  {
    var all := WithIncoming(s.client, msg);
    ForMeIsFor(s.client.userId, msg);
    ReceiveShape(s, msg, true, cursorSaved);
    IncomingIds(s.client, msg);
    IdsOfSave(all);
    if |s.client.allMessages| < MAX_LOCAL_MESSAGES {
      SmallCacheIsKept(all);
    }
  }

  lemma SmallCacheIsKept(all: seq<Entry>)
    requires |all| <= MAX_LOCAL_MESSAGES
    ensures Ids(Retain(all)) == Ids(all)
  {
    SortFacts(all);
    forall i | 0 <= i < |all| ensures all[i].id in Ids(SortById(all)) {
      assert all[i] in SortById(all);
    }
    IdsOfSave(all);
  }

  /** Nothing else is added, whatever the writes do. */
  lemma ForOthersIsNotStored(s: Session, msg: Fields, messagesSaved: bool, cursorSaved: bool)
    requires !ValidHistoryMessage(msg) || !IsFor(msg, s.client.userId)
    ensures var after := Step(s, Receives(msg, messagesSaved, cursorSaved));
            && after.received == s.received
            && (forall e :: e in after.client.allMessages ==> e in s.client.allMessages)
            && (forall e :: e in after.client.snapshot ==> e in s.client.allMessages || e in s.client.snapshot)
  {
    ForMeIsFor(s.client.userId, msg);
    RetainFacts(s.client.allMessages);
  }

  /** The cursor follows every valid message once the cache has been written, and only then. */
  lemma CursorFollows(s: Session, msg: Fields, messagesSaved: bool, cursorSaved: bool)
    requires ValidHistoryMessage(msg)
    ensures var id, after := msg["id"].n, Step(s, Receives(msg, messagesSaved, cursorSaved));
            if messagesSaved && id > s.client.lastSeenId then
              && after.client.lastSeenId == id
              && after.client.storedCursor == if cursorSaved then id else s.client.storedCursor
            else after.client.lastSeenId == s.client.lastSeenId && after.client.storedCursor == s.client.storedCursor
  {
  }

  /** A page whose reads succeed starts from the stored cursor or the newest live message stored. */
  lemma GoodLoadReachesAll(c: Client, load: Load)
    requires load.readCache && load.readCursor && ValidEntries(c.snapshot)
    ensures var cursor := LoadState(c, load).lastSeenId;
            && cursor >= c.storedCursor
            && (forall e :: e in c.snapshot && !e.recovered ==> cursor >= e.id)
            && (cursor == c.storedCursor || exists e :: e in c.snapshot && !e.recovered && cursor == e.id)
    ensures Ids(LoadState(c, load).allMessages) + Cut(c.snapshot) == Ids(c.snapshot)
  {
    LoadedIsValid(c, load);
    SplitLength(c.snapshot);
    MaxIdIsLargest(Live(c.snapshot));
    IdsOfSave(c.snapshot);
  }

  lemma {:induction false} MaxIdIsLargest(s: seq<Entry>)
    ensures forall e :: e in s ==> e.id <= MaxId(s)
    ensures MaxId(s) == 0 || exists e :: e in s && e.id == MaxId(s)
  {
    if s != [] {
      MaxIdIsLargest(s[1..]);
      if MaxId(s) == s[0].id {
        assert s[0] in s;
      } else {
        var e :| e in s[1..] && e.id == MaxId(s[1..]);
        assert e in s;
      }
    }
  }

  /**
   A message from another browser is added exactly if it is valid, for the user, older than the server's
   boundary and not cached; otherwise nothing changes.
   */
  lemma ImportedExactly(s: Session, candidate: Fields, source: Source, restoreBefore: nat, saved: bool)
    ensures var after := Step(s, Imports(candidate, source, restoreBefore, saved));
            if ValidHistoryMessage(candidate) && IsFor(candidate, s.client.userId)
               && 1 < restoreBefore && candidate["id"].n < restoreBefore
               && candidate["id"].n !in Ids(s.client.allMessages)
            then candidate["id"].n in Ids(after.client.allMessages) + after.pushedOut
                 && after.received == s.received && after.client.lastSeenId == s.client.lastSeenId
                 && after.client.storedCursor == s.client.storedCursor
            else after == s
  {
    ForMeIsFor(s.client.userId, candidate);
    if ValidHistoryMessage(candidate) {
      HasIdIsMember(s.client.allMessages, candidate["id"].n);
      IdsOfAppend(s.client.allMessages, Restored(candidate, source));
      IdsOfSave(s.client.allMessages + [Restored(candidate, source)]);
    }
  }

  // ---- Runs of the page ----

  /** The first page: the user id it generates, and whether that is stored. */
  datatype First = First(userId: Text, stored: bool)

  function Fresh(first: First): Session {
    Session(Client(first.userId, if first.stored then Some(first.userId) else None, [], 0, [], 0), {}, {}, true)
  }

  function Run(first: First, events: seq<Event>): Session {
    if events == [] then Fresh(first)
    else Step(Run(first, events[..|events| - 1]), events[|events| - 1])
  }

  /** A delivery in order, and a reload that finds in storage what it should. */
  predicate Orderly(first: First, events: seq<Event>, k: nat)
    requires k < |events|
  {
    var s := Run(first, events[..k]);
    InOrder(s.client, events[k]) && (events[k].Reloads? ==> FindsCache(s, events[k].load))
  }

  predicate AlwaysOrderly(first: First, events: seq<Event>) {
    forall k :: 0 <= k < |events| ==> Orderly(first, events, k)
  }

  lemma OrderlyWhenShorter(first: First, events: seq<Event>, n: nat, k: nat)
    requires k < n <= |events| && Orderly(first, events, k)
    ensures Orderly(first, events[..n], k)
  {
    assert events[..n][..k] == events[..k];
  }

  lemma OrderlyBefore(first: First, events: seq<Event>)
    requires events != [] && AlwaysOrderly(first, events)
    ensures AlwaysOrderly(first, events[..|events| - 1])
    ensures Orderly(first, events, |events| - 1)
  {
    var last := |events| - 1;
    var shorter := events[..last];
    forall k | 0 <= k < last ensures Orderly(first, shorter, k) {
      OrderlyWhenShorter(first, events, last, k);
    }
  }

  /**
   In every run whose reloads find in storage what they should, whichever writes fail, each message
   received up to the stored cursor is in the stored snapshot, unless the cap pushed it out. As the
   two writes of a step may fail separately, this covers the moment between them.
   */
  lemma {:induction false} StorageIsInOrder(first: First, events: seq<Event>)
    requires AlwaysOrderly(first, events)
    ensures Sound(Run(first, events))
  {
    if events == [] {
      assert Run(first, events) == Fresh(first);
    } else {
      OrderlyBefore(first, events);
      StorageIsInOrder(first, events[..|events| - 1]);
      StepIsSound(Run(first, events[..|events| - 1]), events[|events| - 1]);
    }
  }
}
