/**
 Validation of chat messages and history responses on the server, validation of history messages in
 the browser, and how the two fit together.
 */
module ChatProtocol {
  import opened ChatTypes
  import opened Json
  import Utf8
  import MessageIdStore
  import MessageLog
  import SessionSends
  import SessionSteps
  import SessionTable

  const MAX_USER_ID_LEN := 63
  const MAX_NAME_LEN := 31
  const MAX_REQUEST_ID_LEN := 63
  const MAX_GROUP_ID_LEN := 63
  const MAX_GROUP_NAME_LEN := 63
  const MAX_TYPE_LEN := 24

  const TEXT: Text := [0x74, 0x65, 0x78, 0x74]
  const NEW_GROUP: Text := [0x6E, 0x65, 0x77, 0x47, 0x72, 0x6F, 0x75, 0x70]

  /** The limits that are set when the firmware is configured. */
  datatype Limits = Limits(maxTextBytes: nat, maxClients: nat)

  /** The length of a string in bytes, as the C code measures it. */
  function ByteLength(s: Text): nat {
    |Utf8.EncodeAll(s)|
  }

  predicate StringInRange(item: Option<Json>, maxLen: nat, allowEmpty: bool) {
    item.Some? && item.value.Str? &&
    var len := ByteLength(item.value.s);
    (allowEmpty || len > 0) && len <= maxLen
  }

  predicate IsText(item: Option<Json>, s: Text) {
    item == Some(Str(s))
  }

  /** Adds the defaults `to`, `to.all` and `to.users`, and checks the target. */
  function ValidateTo(root: Fields, limits: Limits): (r: (bool, Fields)) {
    var root := if "to" in root then root else root["to" := Obj(map[])];
    if !root["to"].Obj? then (false, root)
    else
      var to := root["to"].fields;
      var to := if "all" in to then to else to["all" := Bool(false)];
      if !to["all"].Bool? then (false, root["to" := Obj(to)])
      else
        var to := if "users" in to then to else to["users" := Arr([])];
        var root := root["to" := Obj(to)];
        if !to["users"].Arr? || |to["users"].items| > limits.maxClients + 1 then (false, root)
        else
          var users := to["users"].items;
          ((forall u :: u in users ==> StringInRange(Some(u), MAX_USER_ID_LEN, false))
           && (to["all"].b || |users| > 0), root)
  }

  predicate ValidateGroupFields(message: Fields, required: bool) {
    var groupId, groupName := Get(message, "groupId"), Get(message, "groupName");
    (!required && groupId.None? && groupName.None?) ||
    (StringInRange(groupId, MAX_GROUP_ID_LEN, false) && StringInRange(groupName, MAX_GROUP_NAME_LEN, false))
  }

  datatype Verdict = Reject(code: string) | Accept(root: Fields)

  /** The checks on a chat message before it is stored; the accepted root carries the target defaults. */
  function ValidateChat(root: Fields, limits: Limits): Verdict {
    var type_ := Get(root, "type");
    var data := Get(root, "data");
    if !StringInRange(type_, MAX_TYPE_LEN, false) then Reject("bad_type")
    else if !StringInRange(Get(root, "from"), MAX_USER_ID_LEN, false) ||
            !StringInRange(Get(root, "name"), MAX_NAME_LEN, false) then Reject("bad_message")
    else if !ValidateGroupFields(root, IsText(type_, NEW_GROUP)) then Reject("bad_group")
    else if IsText(type_, TEXT) then
      if !StringInRange(data, limits.maxTextBytes, false) then Reject("bad_text")
      else
        var (ok, root') := ValidateTo(root, limits);
        if ok then Accept(root') else Reject("bad_target")
    else if IsText(type_, NEW_GROUP) then
      if !StringInRange(data, limits.maxTextBytes, true) then Reject("bad_group")
      else
        var (ok, root') := ValidateTo(root, limits);
        if ok then Accept(root') else Reject("bad_group")
    else Reject("unknown_type")
  }

  predicate Contains(list: Option<Json>, value: Text) {
    list.Some? && list.value.Arr? && Str(value) in list.value.items
  }

  /** Whether the server considers a message visible to a user. */
  predicate VisibleToUser(message: Fields, userId: Text) {
    userId != [] &&
    (IsText(Get(message, "from"), userId) ||
     ("to" in message && message["to"].Obj? &&
      (Get(message["to"].fields, "all") == Some(Bool(true)) ||
       Contains(Get(message["to"].fields, "users"), userId))))
  }

  // ---- History responses ----

  predicate HistoryHead(message: Fields) {
    && Get(message, "id").Some? && message["id"].Num? && 1 <= message["id"].n <= MessageIdStore.MAX_SAFE_ID
    && Get(message, "timestamp").Some? && message["timestamp"].Num?
    && StringInRange(Get(message, "type"), MAX_TYPE_LEN, false)
    && StringInRange(Get(message, "from"), MAX_USER_ID_LEN, false)
    && StringInRange(Get(message, "name"), MAX_NAME_LEN, false)
  }

  predicate HistoryBody(message: Fields, limits: Limits) {
    var type_, data := Get(message, "type"), Get(message, "data");
    && ValidateGroupFields(message, IsText(type_, NEW_GROUP))
    && (if IsText(type_, TEXT) then StringInRange(data, limits.maxTextBytes, false)
        else IsText(type_, NEW_GROUP) && StringInRange(data, limits.maxTextBytes, true))
  }

  /** The checks on the message inside a history response; its target defaults are filled in. */
  function ValidateHistoryMessage(message: Fields, limits: Limits): (bool, Fields) {
    if !HistoryHead(message) then (false, message)
    else
      var (ok, message') := ValidateTo(message, limits);
      (ok && HistoryBody(message', limits), message')
  }

  function TargetUsers(root: Fields): seq<Json> {
    if "to" in root && root["to"].Obj? && "users" in root["to"].fields && root["to"].fields["users"].Arr?
    then root["to"].fields["users"].items else []
  }

  predicate TargetsMatchMessage(root: Fields, message: Fields) {
    TargetUsers(root) != [] &&
    forall u :: u in TargetUsers(root) ==>
                  StringInRange(Some(u), MAX_USER_ID_LEN, false) && VisibleToUser(message, u.s)
  }

  /** What the server does with a history response, given its current restore boundary. */
  function HandleHistoryResponse(root: Fields, restoreBefore: nat, limits: Limits): Verdict {
    if !StringInRange(Get(root, "from"), MAX_USER_ID_LEN, false) ||
       !StringInRange(Get(root, "name"), MAX_NAME_LEN, false) ||
       !StringInRange(Get(root, "requestId"), MAX_REQUEST_ID_LEN, false) then Reject("bad_history_response")
    else
      var (ok, root1) := ValidateTo(root, limits);
      if !ok || root1["to"].fields["all"] == Bool(true) then Reject("bad_history_response")
      else if !("message" in root1 && root1["message"].Obj?) then Reject("bad_history_response")
      else
        var (valid, message) := ValidateHistoryMessage(root1["message"].fields, limits);
        if !valid || message["id"].n >= restoreBefore || !TargetsMatchMessage(root1, message)
        then Reject("bad_history_response")
        else Accept(root1["message" := Obj(message)])
  }

  /** The users a message names as its targets. */
  function TargetNames(root: Fields): set<Text> {
    set u | u in TargetUsers(root) && u.Str? :: u.s
  }

  /**
   A relayed history response carries a valid message older than the boundary, which every user it
   names may see.
   */
  lemma RelayedHistoryIsOld(root: Fields, restoreBefore: nat, limits: Limits)
    requires HandleHistoryResponse(root, restoreBefore, limits).Accept?
    ensures var relayed := HandleHistoryResponse(root, restoreBefore, limits).root;
            && "message" in relayed && relayed["message"].Obj?
            && var message := relayed["message"].fields;
               && ValidateHistoryMessage(message, limits) == (true, message)
               && 1 <= message["id"].n < restoreBefore
               && forall u :: u in TargetUsers(relayed) ==> u.Str? && VisibleToUser(message, u.s)
  {
    var (_, root1) := ValidateTo(root, limits);
    var relayed := HandleHistoryResponse(root, restoreBefore, limits).root;
    DefaultsAreStable(root1["message"].fields, limits);
    assert TargetUsers(relayed) == TargetUsers(root1);
  }

  /** The users to whom the handler relays a response; none if it rejects it. */
  function RelayTargets(verdict: Verdict): Option<set<Text>> {
    if verdict.Accept? then Some(TargetNames(verdict.root)) else None
  }

  /** A response with a message that every user it names may see. */
  predicate MayRelay(relayed: Fields) {
    && "message" in relayed && relayed["message"].Obj?
    && forall u :: u in TargetUsers(relayed) ==> u.Str? && VisibleToUser(relayed["message"].fields, u.s)
  }

  /** A slot whose user may see the message of a response. */
  predicate Viewer(slot: Slot, relayed: Fields) {
    MayRelay(relayed) && slot.joined && VisibleToUser(relayed["message"].fields, slot.userId)
  }

  lemma RelayOfAllowed(relayed: Fields, w: SessionTable.World, fd: int, net: SessionTable.Net, w': SessionTable.World)
    requires SessionSteps.Good(w) && MayRelay(relayed)
    requires w' == SessionTable.HandleHistoryResponse(w, fd, Some(TargetNames(relayed)), net)
    ensures w.sent <= w'.sent
    ensures forall k :: |w.sent| <= k < |w'.sent| && w'.sent[k].packet == SessionTable.HistoryText ==>
                          exists i :: 0 <= i < |w.slots| &&
                                    Viewer(w.slots[i], relayed) && w.slots[i].fd == w'.sent[k].fd
    ensures forall i :: 0 <= i < |w.slots| && w.slots[i].joined && Str(w.slots[i].userId) in TargetUsers(relayed) ==>
                          SessionSends.OnceTo(w, w', SessionTable.HistoryText, w.slots[i].fd)
  {
    var names := TargetNames(relayed);
    SessionSends.ResponseGoesToNamed(w, fd, names, net);
    forall k | |w.sent| <= k < |w'.sent| && w'.sent[k].packet == SessionTable.HistoryText
      ensures exists i :: 0 <= i < |w.slots| && Viewer(w.slots[i], relayed) && w.slots[i].fd == w'.sent[k].fd
    {
      assert SessionSends.New(w, w', k);
      var i :| 0 <= i < |w.slots| && i in SessionSends.Named(w.slots, names) && w.slots[i].fd == w'.sent[k].fd;
      assert Viewer(w.slots[i], relayed);
    }
    forall i | 0 <= i < |w.slots| && w.slots[i].joined && Str(w.slots[i].userId) in TargetUsers(relayed)
      ensures SessionSends.OnceTo(w, w', SessionTable.HistoryText, w.slots[i].fd)
    {
      assert i in SessionSends.Named(w.slots, names);
    }
  }

  /**
   What the handler sends: a response goes only to connections whose user may see its message, and once to
   each joined connection of a user it names. A rejected one goes to nobody.
   */
  lemma RelayReachesOnlyViewers(root: Fields, restoreBefore: nat, limits: Limits, w: SessionTable.World, fd: int,
                                net: SessionTable.Net)
    requires SessionSteps.Good(w)
    ensures var verdict := HandleHistoryResponse(root, restoreBefore, limits);
            var w' := SessionTable.HandleHistoryResponse(w, fd, RelayTargets(verdict), net);
            && w.sent <= w'.sent
            && (forall k :: |w.sent| <= k < |w'.sent| && w'.sent[k].packet == SessionTable.HistoryText ==>
                              && verdict.Accept?
                              && exists i :: 0 <= i < |w.slots| && Viewer(w.slots[i], verdict.root)
                                        && w.slots[i].fd == w'.sent[k].fd)
            && (verdict.Accept? ==>
                  forall i :: 0 <= i < |w.slots| && w.slots[i].joined
                              && Str(w.slots[i].userId) in TargetUsers(verdict.root) ==>
                                SessionSends.OnceTo(w, w', SessionTable.HistoryText, w.slots[i].fd))
  {
    var verdict := HandleHistoryResponse(root, restoreBefore, limits);
    var w' := SessionTable.HandleHistoryResponse(w, fd, RelayTargets(verdict), net);
    if verdict.Accept? {
      RelayedHistoryIsOld(root, restoreBefore, limits);
      RelayOfAllowed(verdict.root, w, fd, net, w');
    } else {
      SessionSends.RejectedResponseIsTold(w, fd, net);
    }
  }

  /** Filling in the target defaults a second time changes nothing. */
  lemma TargetDefaultsAreStable(root: Fields, limits: Limits)
    requires ValidateTo(root, limits).0
    ensures ValidateTo(ValidateTo(root, limits).1, limits) == (true, ValidateTo(root, limits).1)
  {
    var filled := ValidateTo(root, limits).1;
    assert filled["to" := Obj(filled["to"].fields)] == filled;
  }

  lemma TargetDefaultsKeepOthers(root: Fields, limits: Limits, key: string)
    requires key != "to"
    ensures Get(ValidateTo(root, limits).1, key) == Get(root, key)
  {
  }

  lemma DefaultsAreStable(message: Fields, limits: Limits)
    requires ValidateHistoryMessage(message, limits).0
    ensures var filled := ValidateHistoryMessage(message, limits).1;
            ValidateHistoryMessage(filled, limits) == (true, filled)
  {
    var filled := ValidateTo(message, limits).1;
    TargetDefaultsAreStable(message, limits);
    TargetDefaultsKeepOthers(message, limits, "id");
    TargetDefaultsKeepOthers(message, limits, "timestamp");
    TargetDefaultsKeepOthers(message, limits, "type");
    TargetDefaultsKeepOthers(message, limits, "from");
    TargetDefaultsKeepOthers(message, limits, "name");
    SameHead(message, filled);
  }

  lemma SameHead(a: Fields, b: Fields)
    requires Get(a, "id") == Get(b, "id") && Get(a, "timestamp") == Get(b, "timestamp")
    requires Get(a, "type") == Get(b, "type") && Get(a, "from") == Get(b, "from") && Get(a, "name") == Get(b, "name")
    ensures HistoryHead(a) == HistoryHead(b)
  {
  }

  // ---- The browser's side ----

  /** The browser's byte count of a string, code point by code point. */
  method WsDataSize(value: Text) returns (bytes: nat)
    ensures bytes == ByteLength(value)
  {
    bytes := 0;
    for i := 0 to |value|
      invariant bytes + |Utf8.EncodeAll(value[i..])| == ByteLength(value)
    {
      var codePoint := value[i];
      assert value[i..][1..] == value[i + 1..];
      assert |Utf8.EncodeAll(value[i..])| == |Utf8.Encode(codePoint)| + |Utf8.EncodeAll(value[i + 1..])|;
      bytes := bytes + if codePoint <= 0x7F then 1 else if codePoint <= 0x7FF then 2
                       else if codePoint <= 0xFFFF then 3 else 4;
    }
  }

  predicate ValidUserId(v: Option<Json>) {
    v.Some? && v.value.Str? && |v.value.s| > 0 && ByteLength(v.value.s) <= 63
  }

  predicate ValidMessageTarget(v: Option<Json>) {
    v.Some? && v.value.Obj? &&
    var to := v.value.fields;
    && "all" in to && to["all"].Bool?
    && "users" in to && to["users"].Arr? && |to["users"].items| <= 17
    && (forall u :: u in to["users"].items ==> ValidUserId(Some(u)))
    && (to["all"].b || |to["users"].items| > 0)
  }

  predicate ShortString(v: Option<Json>, maxLen: nat) {
    v.Some? && v.value.Str? && |v.value.s| > 0 && ByteLength(v.value.s) <= maxLen
  }

  /** What the browser requires of a message before it stores it or moves its cursor. */
  predicate ValidHistoryMessage(msg: Fields) {
    && Get(msg, "id").Some? && msg["id"].Num? && 0 < msg["id"].n <= MessageIdStore.MAX_SAFE_ID
    && (IsText(Get(msg, "type"), TEXT) || IsText(Get(msg, "type"), NEW_GROUP))
    && ValidUserId(Get(msg, "from"))
    && ShortString(Get(msg, "name"), 31)
    && ValidMessageTarget(Get(msg, "to"))
    && Get(msg, "timestamp").Some? && msg["timestamp"].Num?
    && Get(msg, "data").Some? && msg["data"].Str? && ByteLength(msg["data"].s) <= 256
    && (IsText(Get(msg, "type"), TEXT) ==> |msg["data"].s| > 0)
    && (IsText(Get(msg, "type"), NEW_GROUP) || "groupId" in msg || "groupName" in msg ==>
          ShortString(Get(msg, "groupId"), 63) && ShortString(Get(msg, "groupName"), 63))
  }

  /** Whether the browser considers a message visible to a user. */
  predicate ClientVisible(msg: Fields, userId: Text) {
    IsText(Get(msg, "from"), userId) ||
    ("to" in msg && msg["to"].Obj? &&
     (Get(msg["to"].fields, "all") == Some(Bool(true)) || Contains(Get(msg["to"].fields, "users"), userId)))
  }

  /** Server and browser agree on who may see a message. */
  lemma VisibilityAgrees(msg: Fields, userId: Text)
    requires ValidHistoryMessage(msg) && userId != []
    ensures VisibleToUser(msg, userId) <==> ClientVisible(msg, userId)
  {
  }

  lemma ByteLengthZero(s: Text)
    ensures ByteLength(s) == 0 <==> s == []
  {
  }

  lemma RangeIsShort(v: Option<Json>, maxLen: nat)
    requires StringInRange(v, maxLen, false)
    ensures ShortString(v, maxLen)
  {
    ByteLengthZero(v.value.s);
  }

  lemma TargetIsValid(root: Fields, limits: Limits)
    requires limits.maxClients <= 16 && ValidateTo(root, limits).0
    ensures ValidMessageTarget(Get(ValidateTo(root, limits).1, "to"))
  {
    var to := ValidateTo(root, limits).1["to"].fields;
    forall u | u in to["users"].items ensures ValidUserId(Some(u)) {
      RangeIsShort(Some(u), MAX_USER_ID_LEN);
    }
  }

  /**
   Everything the server stores passes the browser's check, so no stored message can stall or skip
   the browser's cursor. The browser hard-codes 256 bytes of text and 17 targets, so this needs
   the configured limits to stay within those.
   */
  lemma StoredMessagePassesClient(root: Fields, limits: Limits, id: nat, timestamp: int)
    requires limits.maxTextBytes <= 256 && limits.maxClients <= 16
    requires ValidateChat(root, limits).Accept? && 1 <= id <= MessageIdStore.MAX_SAFE_ID
    ensures ValidHistoryMessage(MessageLog.Finalize(ValidateChat(root, limits).root, id, timestamp))
  {
    AcceptedIsFilled(root, limits);
    ChatBodyExactly(root, limits);
    TargetIsValid(root, limits);
    FinalizedFields(root, limits, id, timestamp);
    BrowserCheckIs(root, MessageLog.Finalize(ValidateTo(root, limits).1, id, timestamp));
  }

  lemma FieldKept(root: Fields, limits: Limits, id: nat, timestamp: int, key: string)
    requires key != "to" && key != "id" && key != "timestamp"
    ensures Get(MessageLog.Finalize(ValidateTo(root, limits).1, id, timestamp), key) == Get(root, key)
  {
    TargetDefaultsKeepOthers(root, limits, key);
  }

  // ---- What is accepted ----

  /** The number of targets after the defaults have been filled in. */
  predicate TargetsFit(root: Fields, limits: Limits) {
    |TargetUsers(ValidateTo(root, limits).1)| <= limits.maxClients + 1
  }

  lemma TargetExactly(root: Fields, limits: Limits)
    requires limits.maxClients <= 16
    ensures ValidateTo(root, limits).0 <==>
            ValidMessageTarget(Get(ValidateTo(root, limits).1, "to")) && TargetsFit(root, limits)
  {
    if ValidateTo(root, limits).0 {
      TargetIsValid(root, limits);
    } else {
      var filled := ValidateTo(root, limits).1;
      if ValidMessageTarget(Get(filled, "to")) && TargetsFit(root, limits) {
        var users := filled["to"].fields["users"].items;
        forall u | u in users ensures StringInRange(Some(u), MAX_USER_ID_LEN, false) {
          ByteLengthZero(u.s);
        }
      }
    }
  }

  /** Short strings are those in range. */
  lemma ShortIsInRange(v: Option<Json>, maxLen: nat)
    ensures ShortString(v, maxLen) <==> StringInRange(v, maxLen, false)
  {
    if v.Some? && v.value.Str? {
      ByteLengthZero(v.value.s);
    }
  }

  lemma GroupExactly(root: Fields, required: bool)
    ensures ValidateGroupFields(root, required) <==>
            (required || "groupId" in root || "groupName" in root ==>
               ShortString(Get(root, "groupId"), 63) && ShortString(Get(root, "groupName"), 63))
  {
    ShortIsInRange(Get(root, "groupId"), MAX_GROUP_ID_LEN);
    ShortIsInRange(Get(root, "groupName"), MAX_GROUP_NAME_LEN);
  }

  /** What the server checks of a message apart from its target. */
  predicate BodyFits(root: Fields, maxTextBytes: nat) {
    && (IsText(Get(root, "type"), TEXT) || IsText(Get(root, "type"), NEW_GROUP))
    && ShortString(Get(root, "from"), 63) && ShortString(Get(root, "name"), 31)
    && Get(root, "data").Some? && root["data"].Str? && ByteLength(root["data"].s) <= maxTextBytes
    && (IsText(Get(root, "type"), TEXT) ==> root["data"].s != [])
    && (IsText(Get(root, "type"), NEW_GROUP) || "groupId" in root || "groupName" in root ==>
          ShortString(Get(root, "groupId"), 63) && ShortString(Get(root, "groupName"), 63))
  }

  lemma TypeFits(v: Option<Json>)
    requires IsText(v, TEXT) || IsText(v, NEW_GROUP)
    ensures StringInRange(v, MAX_TYPE_LEN, false)
  {
    AsciiLength(v.value.s);
  }

  lemma {:induction false} AsciiLength(s: Text)
    requires forall i :: 0 <= i < |s| ==> s[i] < 0x80
    ensures ByteLength(s) == |s|
  {
    if s != [] {
      AsciiLength(s[1..]);
    }
  }

  lemma DataExactly(data: Option<Json>, maxLen: nat, allowEmpty: bool)
    ensures StringInRange(data, maxLen, allowEmpty) <==>
            data.Some? && data.value.Str? && ByteLength(data.value.s) <= maxLen && (allowEmpty || data.value.s != [])
  {
    if data.Some? && data.value.Str? {
      ByteLengthZero(data.value.s);
    }
  }

  lemma ChatBodyExactly(root: Fields, limits: Limits)
    ensures ValidateChat(root, limits).Accept? <==> BodyFits(root, limits.maxTextBytes) && ValidateTo(root, limits).0
  {
    ShortIsInRange(Get(root, "from"), MAX_USER_ID_LEN);
    ShortIsInRange(Get(root, "name"), MAX_NAME_LEN);
    GroupExactly(root, IsText(Get(root, "type"), NEW_GROUP));
    if IsText(Get(root, "type"), TEXT) || IsText(Get(root, "type"), NEW_GROUP) {
      TypeFits(Get(root, "type"));
    }
    DataExactly(Get(root, "data"), limits.maxTextBytes, IsText(Get(root, "type"), NEW_GROUP));
  }

  /** The browser's check, split into body and target. */
  lemma BrowserCheckIs(root: Fields, msg: Fields)
    requires Get(msg, "type") == Get(root, "type") && Get(msg, "from") == Get(root, "from")
    requires Get(msg, "name") == Get(root, "name") && Get(msg, "data") == Get(root, "data")
    requires Get(msg, "groupId") == Get(root, "groupId") && Get(msg, "groupName") == Get(root, "groupName")
    requires Get(msg, "id").Some? && msg["id"].Num? && 1 <= msg["id"].n <= MessageIdStore.MAX_SAFE_ID
    requires Get(msg, "timestamp").Some? && msg["timestamp"].Num?
    ensures ValidHistoryMessage(msg) <==> BodyFits(root, 256) && ValidMessageTarget(Get(msg, "to"))
  {
  }

  lemma FinalizedFields(root: Fields, limits: Limits, id: nat, timestamp: int)
    ensures var msg := MessageLog.Finalize(ValidateTo(root, limits).1, id, timestamp);
            && Get(msg, "type") == Get(root, "type") && Get(msg, "from") == Get(root, "from")
            && Get(msg, "name") == Get(root, "name") && Get(msg, "data") == Get(root, "data")
            && Get(msg, "groupId") == Get(root, "groupId") && Get(msg, "groupName") == Get(root, "groupName")
            && Get(msg, "to") == Get(ValidateTo(root, limits).1, "to")
            && Get(msg, "id") == Some(Num(id)) && Get(msg, "timestamp") == Some(Num(timestamp))
  {
    FieldKept(root, limits, id, timestamp, "type");
    FieldKept(root, limits, id, timestamp, "from");
    FieldKept(root, limits, id, timestamp, "name");
    FieldKept(root, limits, id, timestamp, "data");
    FieldKept(root, limits, id, timestamp, "groupId");
    FieldKept(root, limits, id, timestamp, "groupName");
  }

  /**
   The server accepts exactly the messages whose stored form the browser would keep, within its own limits
   for text and targets.
   */
  lemma AcceptedExactly(root: Fields, limits: Limits, id: nat, timestamp: int)
    requires limits.maxTextBytes <= 256 && limits.maxClients <= 16 && 1 <= id <= MessageIdStore.MAX_SAFE_ID
    ensures ValidateChat(root, limits).Accept? <==>
            && ValidHistoryMessage(MessageLog.Finalize(ValidateTo(root, limits).1, id, timestamp))
            && ByteLength(root["data"].s) <= limits.maxTextBytes && TargetsFit(root, limits)
  {
    ChatBodyExactly(root, limits);
    TargetExactly(root, limits);
    FinalizedFields(root, limits, id, timestamp);
    BrowserCheckIs(root, MessageLog.Finalize(ValidateTo(root, limits).1, id, timestamp));
  }

  lemma DefaultsNameNobody(root: Fields, limits: Limits, user: Text)
    requires ValidateTo(root, limits).0
    ensures var filled := ValidateTo(root, limits).1;
            && (VisibleToUser(filled, user) <==> VisibleToUser(root, user))
            && Get(filled, "from") == Get(root, "from")
  {
    TargetDefaultsKeepOthers(root, limits, "from");
  }

  lemma SameAudienceAs(a: Fields, b: Fields, user: Text)
    requires Get(a, "from") == Get(b, "from") && Get(a, "to") == Get(b, "to")
    ensures VisibleToUser(a, user) <==> VisibleToUser(b, user)
  {
  }

  lemma FinalizedAudience(root: Fields, limits: Limits, id: nat, timestamp: int, user: Text)
    ensures var filled := ValidateTo(root, limits).1;
            VisibleToUser(MessageLog.Finalize(filled, id, timestamp), user) <==> VisibleToUser(filled, user)
  {
    var filled := ValidateTo(root, limits).1;
    FinalizedFields(root, limits, id, timestamp);
    TargetDefaultsKeepOthers(root, limits, "from");
    SameAudienceAs(MessageLog.Finalize(filled, id, timestamp), filled, user);
  }

  lemma AcceptedIsFilled(root: Fields, limits: Limits)
    requires ValidateChat(root, limits).Accept?
    ensures ValidateTo(root, limits).0 && ValidateChat(root, limits).root == ValidateTo(root, limits).1
  {
  }

  /** Accepting and storing a message changes nobody's right to see it. */
  lemma AudienceStays(root: Fields, limits: Limits, id: nat, timestamp: int, user: Text)
    requires ValidateChat(root, limits).Accept?
    ensures var stored := MessageLog.Finalize(ValidateChat(root, limits).root, id, timestamp);
            VisibleToUser(stored, user) <==> VisibleToUser(root, user)
  {
    AcceptedIsFilled(root, limits);
    FinalizedAudience(root, limits, id, timestamp, user);
    DefaultsNameNobody(root, limits, user);
  }

  /** A message in a response is checked as the browser checks it, within the server's own limits. */
  lemma HistoryMessageExactly(message: Fields, limits: Limits)
    requires limits.maxTextBytes <= 256 && limits.maxClients <= 16
    ensures var filled := ValidateTo(message, limits).1;
            ValidateHistoryMessage(message, limits).0 <==>
              && ValidHistoryMessage(filled)
              && ByteLength(filled["data"].s) <= limits.maxTextBytes && TargetsFit(message, limits)
  {
    var filled := ValidateTo(message, limits).1;
    TargetExactly(message, limits);
    TargetDefaultsKeepOthers(message, limits, "id");
    TargetDefaultsKeepOthers(message, limits, "timestamp");
    TargetDefaultsKeepOthers(message, limits, "type");
    TargetDefaultsKeepOthers(message, limits, "from");
    TargetDefaultsKeepOthers(message, limits, "name");
    HistoryPartsExactly(filled, limits);
    SameHead(message, filled);
  }

  lemma HistoryPartsExactly(message: Fields, limits: Limits)
    requires limits.maxTextBytes <= 256
    ensures HistoryHead(message) && HistoryBody(message, limits) && ValidMessageTarget(Get(message, "to")) <==>
            ValidHistoryMessage(message) && ByteLength(message["data"].s) <= limits.maxTextBytes
  {
    ShortIsInRange(Get(message, "from"), MAX_USER_ID_LEN);
    ShortIsInRange(Get(message, "name"), MAX_NAME_LEN);
    GroupExactly(message, IsText(Get(message, "type"), NEW_GROUP));
    if IsText(Get(message, "type"), TEXT) || IsText(Get(message, "type"), NEW_GROUP) {
      TypeFits(Get(message, "type"));
    }
    if Get(message, "data").Some? && message["data"].Str? {
      ByteLengthZero(message["data"].s);
    }
  }

  /** The response's own fields: who sends it, for which request, and to which users by name. */
  predicate ResponseHead(root: Fields, limits: Limits) {
    var filled := ValidateTo(root, limits).1;
    && ShortString(Get(root, "from"), 63) && ShortString(Get(root, "name"), 31)
    && ShortString(Get(root, "requestId"), 63)
    && ValidMessageTarget(Get(filled, "to")) && TargetsFit(root, limits) && filled["to"].fields["all"] == Bool(false)
  }

  /**
   A history response is accepted exactly if it names users, all of whom may see its message, and that is a
   message the browser would keep, older than the boundary and within the server's own limits.
   */
  lemma ResponseAcceptedExactly(root: Fields, restoreBefore: nat, limits: Limits)
    requires limits.maxTextBytes <= 256 && limits.maxClients <= 16
    ensures HandleHistoryResponse(root, restoreBefore, limits).Accept? <==>
            && ResponseHead(root, limits) && "message" in root && root["message"].Obj?
            && var message := ValidateTo(root["message"].fields, limits).1;
               && ValidHistoryMessage(message) && ByteLength(message["data"].s) <= limits.maxTextBytes
               && TargetsFit(root["message"].fields, limits) && message["id"].n < restoreBefore
               && forall u :: u in TargetUsers(ValidateTo(root, limits).1) && u.Str? ==> VisibleToUser(message, u.s)
  {
    ShortIsInRange(Get(root, "from"), MAX_USER_ID_LEN);
    ShortIsInRange(Get(root, "name"), MAX_NAME_LEN);
    ShortIsInRange(Get(root, "requestId"), MAX_REQUEST_ID_LEN);
    TargetExactly(root, limits);
    TargetDefaultsKeepOthers(root, limits, "message");
    if "message" in root && root["message"].Obj? {
      HistoryMessageExactly(root["message"].fields, limits);
    }
  }
}
