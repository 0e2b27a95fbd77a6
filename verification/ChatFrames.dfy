/**
 Chat messages as JSON texts in WebSocket frames: which texts the server receives, how long they are
 at least, and for which limits the browser accepts all that is stored.
 */
module ChatFrames {
  import opened Arithmetic
  import opened Bytes
  import opened ChatTypes
  import opened ChatProtocol
  import opened Json
  import opened JsonGuard
  import MessageIdStore
  import MessageLog
  import Utf8

  // ---- What a JSON text denotes ----

  const TRUE: seq<Byte> := [0x74, 0x72, 0x75, 0x65]
  const FALSE: seq<Byte> := [0x66, 0x61, 0x6C, 0x73, 0x65]
  const NULL: seq<Byte> := [0x6E, 0x75, 0x6C, 0x6C]

  function Unescaped(b: Byte): Byte {
    match b
    case 0x62 => 0x08
    case 0x66 => 0x0C
    case 0x6E => 0x0A
    case 0x72 => 0x0D
    case 0x74 => 0x09
    case _ => b
  }

  function HexValue(b: Byte): nat {
    if 0x30 <= b <= 0x39 then b - 0x30
    else if 0x41 <= b <= 0x46 then b - 0x37
    else if 0x61 <= b <= 0x66 then b - 0x57 else 0
  }

  function CodeUnit(h: seq<Byte>): (u: nat)
    requires |h| == 4
    ensures u <= 0xFFFF
  {
    HexValue(h[0]) * 0x1000 + HexValue(h[1]) * 0x100 + HexValue(h[2]) * 0x10 + HexValue(h[3])
  }

  function Prefixed(bytes: seq<Byte>, rest: Option<seq<Byte>>): Option<seq<Byte>> {
    if rest.Some? then Some(bytes + rest.value) else None
  }

  /** The UTF-8 bytes of a string, escapes resolved as section 7 of RFC 8259 says; none for a lone surrogate. */
  function Decoded(cs: seq<Chunk>): Option<seq<Byte>> {
    if cs == [] then Some([])
    else
      match cs[0]
      case Plain(b) => Prefixed([b], Decoded(cs[1..]))
      case Escape(b) => Prefixed([Unescaped(b)], Decoded(cs[1..]))
      case Unicode(h) =>
        if |h| != 4 then None
        else
          var u := CodeUnit(h);
          if u < 0xD800 || 0xDFFF < u then Prefixed(Utf8.Encode(u), Decoded(cs[1..]))
          else if |cs| > 1 && cs[1].Unicode? && |cs[1].h| == 4 && u < 0xDC00 &&
                  0xDC00 <= CodeUnit(cs[1].h) <= 0xDFFF then
            Prefixed(Utf8.Encode(0x10000 + (u - 0xD800) * 0x400 + (CodeUnit(cs[1].h) - 0xDC00)), Decoded(cs[2..]))
          else None
  }

  /** A string in the text spells a key of the model. */
  predicate Spells(cs: seq<Chunk>, key: string) {
    var bytes := Decoded(cs);
    bytes.Some? && |bytes.value| == |key| && forall i :: 0 <= i < |key| ==> bytes.value[i] == key[i] as int
  }

  /** A text stands for a value. Which number a numeral stands for is left open. */
  ghost predicate Denotes(v: Value, j: Json)
    decreases v
  {
    match v
    case Literal(text) =>
      || (text == TRUE && j == Bool(true)) || (text == FALSE && j == Bool(false)) || (text == NULL && j.Null?)
      || (text != [] && (text[0] == 0x2D || 0x30 <= text[0] <= 0x39) && j.Num?)
    case String(cs) => j.Str? && Decoded(cs) == Some(Utf8.EncodeAll(j.s))
    case Array(_, items) =>
      j.Arr? && |items| == |j.items| && forall i :: 0 <= i < |items| ==> Denotes(items[i].value, j.items[i])
    case Object(_, members) =>
      && j.Obj?
      && (forall i :: 0 <= i < |members| ==> MemberDenotes(members[i], j.fields))
      && (forall key :: key in j.fields ==> SomeSpells(members, key))
  }

  ghost predicate MemberDenotes(m: Member, fields: Fields)
    decreases m
  {
    exists key :: key in fields && Spells(m.key, key) && Denotes(m.item.value, fields[key])
  }

  predicate SomeSpells(members: seq<Member>, key: string) {
    exists i :: 0 <= i < |members| && Spells(members[i].key, key)
  }

  /** No object repeats a key. */
  predicate Unambiguous(v: Value)
    decreases v
  {
    match v
    case Literal(_) => true
    case String(_) => true
    case Array(_, items) => forall i :: 0 <= i < |items| ==> Unambiguous(items[i].value)
    case Object(_, members) =>
      && (forall i :: 0 <= i < |members| ==> Unambiguous(members[i].item.value))
      && (forall i, k :: 0 <= i < k < |members| ==> Decoded(members[i].key) != Decoded(members[k].key))
  }

  /** A text that passes the guards of frame and parser and stands for an object. */
  ghost predicate Receivable(text: Item, root: Fields, maxPayload: nat) {
    var payload := PrintItem(text);
    && GoodItem(text) && text.value.Object? && Denotes(text.value, Obj(root)) && Unambiguous(text.value)
    && |payload| <= maxPayload && Utf8.WellFormed(payload) && Scan(payload, 0, false)
  }

  // ---- How long a text is at least ----

  lemma {:induction false} DecodedIsNoLonger(cs: seq<Chunk>)
    requires Decoded(cs).Some?
    ensures |Decoded(cs).value| <= |PrintChunks(cs)|
    decreases |cs|
  {
    if cs != [] {
      match cs[0] {
        case Plain(b) => DecodedIsNoLonger(cs[1..]);
        case Escape(b) => DecodedIsNoLonger(cs[1..]);
        case Unicode(h) =>
          var u := CodeUnit(h);
          if u < 0xD800 || 0xDFFF < u {
            DecodedIsNoLonger(cs[1..]);
          } else {
            assert cs[2..] == cs[1..][1..];
            DecodedIsNoLonger(cs[2..]);
          }
      }
    }
  }

  lemma StringLength(v: Value, s: Text)
    requires Denotes(v, Str(s))
    ensures |Print(v)| >= ByteLength(s) + 2
  {
    DecodedIsNoLonger(v.chunks);
  }

  lemma TrueLength(v: Value)
    requires Denotes(v, Bool(true))
    ensures |Print(v)| >= 4
  {
  }

  lemma FirstItemLength(items: seq<Item>)
    requires items != []
    ensures |PrintItems(items)| >= |Print(items[0].value)|
  {
  }

  lemma ArrayLength(v: Value, items: seq<Json>, s: Text)
    requires Denotes(v, Arr(items)) && items != [] && items[0] == Str(s)
    ensures |Print(v)| >= ByteLength(s) + 4
  {
    StringLength(v.items[0].value, s);
    FirstItemLength(v.items);
  }

  /** Keys an object must have, with a length that their values have at least. */
  type Needs = seq<(string, nat)>

  predicate Distinct(needs: Needs) {
    forall i, k :: 0 <= i < k < |needs| ==> needs[i].0 != needs[k].0
  }

  /** What needed members take: a quoted key, a colon, the value and a comma. */
  function Total(needs: Needs): nat {
    if needs == [] then 0 else |needs[0].0| + 4 + needs[0].1 + Total(needs[1..])
  }

  lemma {:induction false} TotalWithout(needs: Needs, p: nat)
    requires p < |needs|
    ensures Total(needs) == Total(needs[..p] + needs[p + 1..]) + |needs[p].0| + 4 + needs[p].1
  {
    if p == 0 {
      assert needs[..0] + needs[1..] == needs[1..];
    } else {
      TotalWithout(needs[1..], p - 1);
      assert needs[1..][..p - 1] + needs[1..][p..] == (needs[..p] + needs[p + 1..])[1..];
    }
  }

  ghost predicate Met(need: (string, nat), members: seq<Member>) {
    && SomeSpells(members, need.0)
    && (forall i :: 0 <= i < |members| && Spells(members[i].key, need.0) ==> |Print(members[i].item.value)| >= need.1)
  }

  lemma SpellingIsUnique(cs: seq<Chunk>, a: string, b: string)
    requires Spells(cs, a) && Spells(cs, b)
    ensures a == b
  {
    forall i | 0 <= i < |a| ensures a[i] == b[i] {
      assert a[i] as int == b[i] as int;
    }
  }

  lemma MemberLength(m: Member, key: string)
    requires Spells(m.key, key)
    ensures |PrintMember(m)| >= |key| + 3 + |Print(m.item.value)|
  {
    DecodedIsNoLonger(m.key);
  }

  lemma MetWithoutFirst(need: (string, nat), members: seq<Member>)
    requires members != [] && Met(need, members) && !Spells(members[0].key, need.0)
    ensures Met(need, members[1..])
  {
    var i :| 0 <= i < |members| && Spells(members[i].key, need.0);
    assert members[1..][i - 1] == members[i];
  }

  lemma MembersShrink(members: seq<Member>)
    requires |members| > 1
    ensures |PrintMembers(members)| == |PrintMember(members[0])| + 1 + |PrintMembers(members[1..])|
  {
  }

  /** The members of an object take at least what its needed members take. */
  lemma {:induction false} MembersLength(members: seq<Member>, needs: Needs)
    requires members != [] && Distinct(needs) && forall i :: 0 <= i < |needs| ==> Met(needs[i], members)
    ensures |PrintMembers(members)| + 1 >= Total(needs)
    decreases |members|
  {
    if p :| 0 <= p < |needs| && Spells(members[0].key, needs[p].0) {
      var rest := needs[..p] + needs[p + 1..];
      TotalWithout(needs, p);
      MemberLength(members[0], needs[p].0);
      forall i | 0 <= i < |rest| ensures !Spells(members[0].key, rest[i].0) {
        if Spells(members[0].key, rest[i].0) {
          SpellingIsUnique(members[0].key, rest[i].0, needs[p].0);
        }
      }
      RestLength(members, rest);
    } else {
      RestLength(members, needs);
    }
  }

  lemma {:induction false} RestLength(members: seq<Member>, needs: Needs)
    requires members != [] && Distinct(needs) && forall i :: 0 <= i < |needs| ==> Met(needs[i], members)
    requires forall i :: 0 <= i < |needs| ==> !Spells(members[0].key, needs[i].0)
    ensures |PrintMembers(members)| >= |PrintMember(members[0])| + Total(needs)
    decreases |members|, 0
  {
    if |members| == 1 {
      if needs != [] {
        MetWithoutFirst(needs[0], members);
      }
    } else {
      forall i | 0 <= i < |needs| ensures Met(needs[i], members[1..]) {
        MetWithoutFirst(needs[i], members);
      }
      MembersShrink(members);
      MembersLength(members[1..], needs);
    }
  }

  /** Every text of a value is at least so long. */
  ghost predicate AtLeast(j: Json, n: nat) {
    forall w: Value :: Denotes(w, j) ==> |Print(w)| >= n
  }

  lemma MemberMeans(v: Value, fields: Fields, i: nat, key: string)
    requires v.Object? && Denotes(v, Obj(fields)) && i < |v.members| && Spells(v.members[i].key, key)
    ensures key in fields && Denotes(v.members[i].item.value, fields[key])
  {
    assert MemberDenotes(v.members[i], fields);
    var k :| k in fields && Spells(v.members[i].key, k) && Denotes(v.members[i].item.value, fields[k]);
    SpellingIsUnique(v.members[i].key, k, key);
  }

  /** A needed member of an object, from what it denotes. */
  lemma NeedIsMet(v: Value, fields: Fields, key: string, n: nat)
    requires v.Object? && Denotes(v, Obj(fields)) && key in fields && AtLeast(fields[key], n)
    ensures Met((key, n), v.members)
  {
    assert SomeSpells(v.members, key);
    forall i | 0 <= i < |v.members| && Spells(v.members[i].key, key) ensures |Print(v.members[i].item.value)| >= n {
      MemberMeans(v, fields, i, key);
    }
  }

  lemma ObjectLength(v: Value, needs: Needs)
    requires v.Object? && needs != [] && Distinct(needs)
    requires forall i :: 0 <= i < |needs| ==> Met(needs[i], v.members)
    ensures |Print(v)| >= Total(needs) + 1
  {
    assert Met(needs[0], v.members);
    MembersLength(v.members, needs);
  }

  lemma StringAtLeast(s: Text, n: nat)
    requires ByteLength(s) >= n
    ensures AtLeast(Str(s), n + 2)
  {
    forall w: Value | Denotes(w, Str(s)) ensures |Print(w)| >= n + 2 {
      StringLength(w, s);
    }
  }

  lemma TrueAtLeast()
    ensures AtLeast(Bool(true), 4)
  {
    forall w: Value | Denotes(w, Bool(true)) ensures |Print(w)| >= 4 {
      TrueLength(w);
    }
  }

  lemma UsersAtLeast(items: seq<Json>)
    requires items != [] && StringInRange(Some(items[0]), MAX_USER_ID_LEN, false)
    ensures AtLeast(Arr(items), 5)
  {
    forall w: Value | Denotes(w, Arr(items)) ensures |Print(w)| >= 5 {
      ArrayLength(w, items, items[0].s);
    }
  }

  /** A target that addresses someone. */
  predicate Addresses(to: Fields) {
    Get(to, "all") == Some(Bool(true)) ||
    ("users" in to && to["users"].Arr? && to["users"].items != [] &&
     StringInRange(Some(to["users"].items[0]), MAX_USER_ID_LEN, false))
  }

  lemma OneNeedLength(v: Value, key: string, n: nat)
    requires v.Object? && Met((key, n), v.members)
    ensures |Print(v)| >= |key| + n + 5
  {
    var needs: Needs := [(key, n)];
    assert needs[1..] == [];
    ObjectLength(v, needs);
  }

  lemma NeededMember(v: Value, fields: Fields, key: string, n: nat)
    requires v.Object? && Denotes(v, Obj(fields)) && key in fields && AtLeast(fields[key], n)
    ensures |Print(v)| >= |key| + n + 5
  {
    NeedIsMet(v, fields, key, n);
    OneNeedLength(v, key, n);
  }

  /** The shortest target, `{"all":true}`, has 12 bytes. */
  lemma TargetAtLeast(to: Fields)
    requires Addresses(to)
    ensures AtLeast(Obj(to), 12)
  {
    forall w: Value | Denotes(w, Obj(to)) ensures |Print(w)| >= 12 {
      if Get(to, "all") == Some(Bool(true)) {
        TrueAtLeast();
        NeededMember(w, to, "all", 4);
      } else {
        UsersAtLeast(to["users"].items);
        NeededMember(w, to, "users", 5);
      }
    }
  }

  /** The frame of the shortest text message with 257 bytes of text. */
  const SHORTEST_LONG_TEXT := 322

  lemma TypeLength(s: Text)
    requires s == TEXT || s == NEW_GROUP
    ensures ByteLength(s) >= 4
  {
    LengthOfEncoding(s);
  }

  lemma {:induction false} LengthOfEncoding(s: Text)
    ensures ByteLength(s) >= |s|
  {
    if s != [] {
      LengthOfEncoding(s[1..]);
    }
  }

  /** What an accepted message with a long text has. */
  lemma LongMessageParts(root: Fields, limits: Limits)
    requires ValidateChat(root, limits).Accept? && ByteLength(Get(root, "data").value.s) > 256
    ensures "type" in root && root["type"].Str? && ByteLength(root["type"].s) >= 4
    ensures "from" in root && root["from"].Str? && ByteLength(root["from"].s) >= 1
    ensures "name" in root && root["name"].Str? && ByteLength(root["name"].s) >= 1
    ensures "data" in root && root["data"].Str? && ByteLength(root["data"].s) >= 257
  {
    TypeLength(root["type"].s);
  }

  /** An accepted message names its target. */
  lemma AcceptedTarget(root: Fields, limits: Limits)
    requires ValidateTo(root, limits).0
    ensures "to" in root && root["to"].Obj? && Addresses(root["to"].fields)
  {
  }

  /** The lengths that the values of an accepted message with a long text have at least. */
  lemma LongMessageValues(root: Fields, limits: Limits)
    requires ValidateChat(root, limits).Accept? && ByteLength(Get(root, "data").value.s) > 256
    ensures "type" in root && AtLeast(root["type"], 6)
    ensures "from" in root && AtLeast(root["from"], 3)
    ensures "name" in root && AtLeast(root["name"], 3)
    ensures "data" in root && AtLeast(root["data"], 259)
    ensures "to" in root && AtLeast(root["to"], 12)
  {
    LongMessageParts(root, limits);
    AcceptedTarget(root, limits);
    StringAtLeast(root["type"].s, 4);
    StringAtLeast(root["from"].s, 1);
    StringAtLeast(root["name"].s, 1);
    StringAtLeast(root["data"].s, 257);
    TargetAtLeast(root["to"].fields);
  }

  /** A frame with an accepted message of more than 256 bytes of text has at least 322 bytes. */
  lemma LongMessageLength(text: Item, root: Fields, limits: Limits)
    requires text.value.Object? && Denotes(text.value, Obj(root)) && ValidateChat(root, limits).Accept?
    requires ByteLength(Get(root, "data").value.s) > 256
    ensures |PrintItem(text)| >= SHORTEST_LONG_TEXT
  {
    LongMessageValues(root, limits);
    NeedsAreMet(text.value, root);
    LongMessageTotal(text.value);
  }

  lemma NeedsAreMet(v: Value, root: Fields)
    requires v.Object? && Denotes(v, Obj(root))
    requires "type" in root && AtLeast(root["type"], 6) && "from" in root && AtLeast(root["from"], 3)
    requires "name" in root && AtLeast(root["name"], 3) && "data" in root && AtLeast(root["data"], 259)
    requires "to" in root && AtLeast(root["to"], 12)
    ensures Met(("type", 6), v.members) && Met(("from", 3), v.members) && Met(("name", 3), v.members)
    ensures Met(("data", 259), v.members) && Met(("to", 12), v.members)
  {
    NeedIsMet(v, root, "type", 6);
    NeedIsMet(v, root, "from", 3);
    NeedIsMet(v, root, "name", 3);
    NeedIsMet(v, root, "data", 259);
    NeedIsMet(v, root, "to", 12);
  }

  const LONG_NEEDS: Needs := [("type", 6), ("from", 3), ("name", 3), ("data", 259), ("to", 12)]

  lemma LongNeedsTotal()
    ensures Total(LONG_NEEDS) == 321
  {
    var needs: Needs := LONG_NEEDS;
    assert needs[1..][1..][1..][1..][1..] == [];
    assert needs[1..][1..][1..][1..] == [("to", 12)];
    assert needs[1..][1..][1..] == [("data", 259), ("to", 12)];
    assert needs[1..][1..] == [("name", 3), ("data", 259), ("to", 12)];
    assert needs[1..] == [("from", 3), ("name", 3), ("data", 259), ("to", 12)];
  }

  lemma LongMessageTotal(v: Value)
    requires v.Object? && Met(("type", 6), v.members) && Met(("from", 3), v.members) && Met(("name", 3), v.members)
    requires Met(("data", 259), v.members) && Met(("to", 12), v.members)
    ensures |Print(v)| >= SHORTEST_LONG_TEXT
  {
    LongNeedsTotal();
    ObjectLength(v, LONG_NEEDS);
  }

  // ---- When the browser accepts all that is stored ----

  /** Every message that the server can receive and store under these limits is one the browser accepts. */
  ghost predicate BrowserAcceptsAllStored(limits: Limits, maxPayload: nat) {
    forall text: Item, root: Fields, id: nat, timestamp: int ::
      Receivable(text, root, maxPayload) && ValidateChat(root, limits).Accept?
      && 1 <= id <= MessageIdStore.MAX_SAFE_ID ==>
        ValidHistoryMessage(MessageLog.Finalize(ValidateChat(root, limits).root, id, timestamp))
  }

  /** Only a text of more than 256 bytes makes the browser discard what the server has accepted. */
  lemma DiscardedIsLong(root: Fields, limits: Limits, id: nat, timestamp: int)
    requires limits.maxClients <= 16 && ValidateChat(root, limits).Accept? && 1 <= id <= MessageIdStore.MAX_SAFE_ID
    requires !ValidHistoryMessage(MessageLog.Finalize(ValidateChat(root, limits).root, id, timestamp))
    ensures ByteLength(Get(root, "data").value.s) > 256
  {
    if ByteLength(Get(root, "data").value.s) <= 256 {
      var smaller := limits.(maxTextBytes := Min(limits.maxTextBytes, 256));
      SameVerdict(root, limits, smaller);
      StoredMessagePassesClient(root, smaller, id, timestamp);
    }
  }

  lemma SameVerdict(root: Fields, limits: Limits, smaller: Limits)
    requires ValidateChat(root, limits).Accept? && ByteLength(Get(root, "data").value.s) <= 256
    requires smaller == limits.(maxTextBytes := Min(limits.maxTextBytes, 256))
    ensures ValidateChat(root, smaller) == ValidateChat(root, limits)
  {
    assert ValidateTo(root, smaller) == ValidateTo(root, limits);
  }

  // ---- The shortest message that the browser discards ----

  function Plains(bytes: seq<Byte>): seq<Chunk> {
    seq(|bytes|, i requires 0 <= i < |bytes| => Plain(bytes[i]))
  }

  predicate LetterKey(key: string) {
    forall i :: 0 <= i < |key| ==> 'a' <= key[i] <= 'z'
  }

  function KeyBytes(key: string): (bytes: seq<Byte>)
    requires LetterKey(key)
  {
    seq(|key|, i requires 0 <= i < |key| => key[i] as int)
  }

  function Bare(v: Value): Item {
    Item([], v, [])
  }

  function PlainMember(p: (string, Value)): Member
    requires LetterKey(p.0)
  {
    Member([], Plains(KeyBytes(p.0)), [], Bare(p.1))
  }

  function PlainMembers(ps: seq<(string, Value)>): (ms: seq<Member>)
    requires forall p :: p in ps ==> LetterKey(p.0)
    ensures |ms| == |ps| && forall i :: 0 <= i < |ps| ==> ms[i] == PlainMember(ps[i])
  {
    if ps == [] then [] else [PlainMember(ps[0])] + PlainMembers(ps[1..])
  }

  const A: Byte := 0x61

  function As(n: nat): (s: seq<Byte>)
    ensures |s| == n && forall i :: 0 <= i < n ==> s[i] == A
  {
    seq(n, i => A)
  }

  function ToAll(): Value {
    Object([], PlainMembers([("all", Literal(TRUE))]))
  }

  function TextMembers(data: seq<Byte>): seq<(string, Value)> {
    [("type", String(Plains(TEXT))), ("from", String(Plains(As(1)))), ("name", String(Plains(As(1)))),
     ("data", String(Plains(data))), ("to", ToAll())]
  }

  function LongMembers(): seq<(string, Value)> {
    TextMembers(As(257))
  }

  /** `{"type":"text","from":"a","name":"a","data":"aa...a","to":{"all":true}}` with 257 letters of text. */
  function LongText(): Item {
    Bare(Object([], PlainMembers(LongMembers())))
  }

  /** A text message to everyone. */
  function TextRoot(data: Text): Fields {
    map["type" := Str(TEXT), "from" := Str(As(1)), "name" := Str(As(1)), "data" := Str(data),
        "to" := Obj(map["all" := Bool(true)])]
  }

  function LongRoot(): Fields {
    TextRoot(As(257))
  }

  /** Letters and digits stand for themselves. */
  predicate Ascii(s: seq<Byte>) {
    forall i :: 0 <= i < |s| ==> 0x20 <= s[i] < 0x80
  }

  lemma {:induction false} AsciiIsWellFormed(s: seq<Byte>)
    requires Ascii(s)
    ensures Utf8.WellFormed(s)
  {
    if s != [] {
      AsciiIsWellFormed(s[1..]);
    }
  }

  predicate Letters(s: seq<Byte>) {
    forall i :: 0 <= i < |s| ==> 0x61 <= s[i] <= 0x7A
  }

  lemma {:induction false} PlainsPrint(s: seq<Byte>)
    requires Letters(s)
    ensures PrintChunks(Plains(s)) == s && Decoded(Plains(s)) == Some(s)
  {
    if s != [] {
      assert Plains(s)[1..] == Plains(s[1..]);
      PlainsPrint(s[1..]);
    }
  }

  lemma {:induction false} LettersEncode(s: seq<Byte>, t: Text)
    requires Letters(s) && |s| == |t| && forall i :: 0 <= i < |s| ==> s[i] == t[i]
    ensures Utf8.EncodeAll(t) == s
  {
    if s != [] {
      LettersEncode(s[1..], t[1..]);
    }
  }

  /** A plain string: well-formed, printed with two quotes, standing for its letters. */
  lemma PlainString(s: seq<Byte>, t: Text)
    requires Letters(s) && |s| == |t| && forall i :: 0 <= i < |s| ==> s[i] == t[i]
    ensures Denotes(String(Plains(s)), Str(t)) && ByteLength(t) == |s|
    ensures GoodChunks(Plains(s)) && !NulInChunks(Plains(s))
    ensures Print(String(Plains(s))) == [QUOTE] + (s + [QUOTE])
  {
    PlainsPrint(s);
    LettersEncode(s, t);
  }

  lemma KeyIsPlain(key: string)
    requires LetterKey(key)
    ensures Letters(KeyBytes(key)) && Spells(Plains(KeyBytes(key)), key)
    ensures Decoded(Plains(KeyBytes(key))) == Some(KeyBytes(key))
    ensures GoodChunks(Plains(KeyBytes(key))) && !NulInChunks(Plains(KeyBytes(key)))
    ensures PrintString(Plains(KeyBytes(key))) == [QUOTE] + (KeyBytes(key) + [QUOTE])
  {
    PlainsPrint(KeyBytes(key));
  }

  /** A value that the guards let through, and its size. */
  predicate Harmless(v: Value, depth: nat, size: nat) {
    Good(v) && Ascii(Print(v)) && !EscapedNul(v) && Nesting(v) <= depth && |Print(v)| == size
  }

  lemma MemberIsHarmless(p: (string, Value), depth: nat, size: nat)
    requires LetterKey(p.0) && Harmless(p.1, depth, size)
    ensures var m := PlainMember(p);
            && Ascii(PrintMember(m)) && |PrintMember(m)| == |p.0| + 3 + size
            && GoodChunks(m.key) && !NulInChunks(m.key) && GoodItem(m.item)
  {
    KeyIsPlain(p.0);
    var m := PlainMember(p);
    assert PrintItem(m.item) == Print(p.1);
    assert PrintMember(m) == PrintString(m.key) + ([COLON] + Print(p.1));
  }

  /** Needs that the values meet exactly. */
  predicate Sized(ps: seq<(string, Value)>, depth: nat, needs: Needs) {
    && |ps| == |needs| && Distinct(needs)
    && forall i :: 0 <= i < |ps| ==> SizedMember(ps[i], depth, needs[i])
  }

  predicate SizedMember(p: (string, Value), depth: nat, need: (string, nat)) {
    p.0 == need.0 && LetterKey(p.0) && Harmless(p.1, depth, need.1)
  }

  lemma {:induction false} MembersAreHarmless(ps: seq<(string, Value)>, depth: nat, needs: Needs)
    requires ps != [] && Sized(ps, depth, needs)
    ensures var ms := PlainMembers(ps);
            && GoodMembers(ms) && !EscapedNulMembers(ms) && NestingMembers(ms) <= depth
            && Ascii(PrintMembers(ms)) && |PrintMembers(ms)| + 1 == Total(needs)
  {
    var ms := PlainMembers(ps);
    assert SizedMember(ps[0], depth, needs[0]);
    MemberIsHarmless(ps[0], depth, needs[0].1);
    assert ms[1..] == PlainMembers(ps[1..]);
    if |ps| > 1 {
      MembersAreHarmless(ps[1..], depth, needs[1..]);
    }
  }

  lemma ObjectIsHarmless(ps: seq<(string, Value)>, depth: nat, needs: Needs)
    requires ps != [] && Sized(ps, depth, needs)
    ensures Harmless(Object([], PlainMembers(ps)), depth + 1, Total(needs) + 1)
  {
    MembersAreHarmless(ps, depth, needs);
    var v := Object([], PlainMembers(ps));
    assert Print(v) == [LBRACE] + (PrintMembers(PlainMembers(ps)) + [RBRACE]);
  }

  lemma StringIsHarmless(s: seq<Byte>, t: Text, depth: nat)
    requires Letters(s) && |s| == |t| && forall i :: 0 <= i < |s| ==> s[i] == t[i]
    ensures Harmless(String(Plains(s)), depth, |s| + 2)
  {
    PlainString(s, t);
  }

  lemma ToAllIsHarmless()
    ensures Harmless(ToAll(), 1, 12)
  {
    var needs: Needs := [("all", 4)];
    assert needs[1..] == [];
    ObjectIsHarmless([("all", Literal(TRUE))], 0, needs);
  }

  lemma StringMemberSized(key: string, s: seq<Byte>, t: Text)
    requires LetterKey(key) && Letters(s) && |s| == |t| && forall i :: 0 <= i < |s| ==> s[i] == t[i]
    ensures SizedMember((key, String(Plains(s))), 1, (key, |s| + 2))
  {
    StringIsHarmless(s, t, 1);
  }

  lemma LongMembersSized()
    ensures Sized(LongMembers(), 1, LONG_NEEDS)
  {
    StringMemberSized("type", TEXT, TEXT);
    StringMemberSized("from", As(1), As(1));
    StringMemberSized("name", As(1), As(1));
    StringMemberSized("data", As(257), As(257));
    ToAllIsHarmless();
    assert SizedMember(("to", ToAll()), 1, ("to", 12));
    FiveSized(("type", String(Plains(TEXT))), ("from", String(Plains(As(1)))), ("name", String(Plains(As(1)))),
              ("data", String(Plains(As(257)))), ("to", ToAll()));
  }

  lemma FiveSized(p0: (string, Value), p1: (string, Value), p2: (string, Value), p3: (string, Value),
                  p4: (string, Value))
    requires SizedMember(p0, 1, ("type", 6)) && SizedMember(p1, 1, ("from", 3)) && SizedMember(p2, 1, ("name", 3))
    requires SizedMember(p3, 1, ("data", 259)) && SizedMember(p4, 1, ("to", 12))
    ensures Sized([p0, p1, p2, p3, p4], 1, LONG_NEEDS)
  {
  }

  lemma LongTextIsHarmless()
    ensures Harmless(LongText().value, 2, SHORTEST_LONG_TEXT)
  {
    LongMembersSized();
    LongNeedsTotal();
    ObjectIsHarmless(LongMembers(), 1, LONG_NEEDS);
  }

  /** A member that stands for a field. */
  ghost predicate Stands(p: (string, Value), fields: Fields) {
    LetterKey(p.0) && p.0 in fields && Denotes(p.1, fields[p.0]) && Unambiguous(p.1)
  }

  predicate HasKey(ps: seq<(string, Value)>, key: string) {
    exists i :: 0 <= i < |ps| && ps[i].0 == key
  }

  /** An object made of plain members stands for the fields that they stand for. */
  lemma {:induction false} PlainObjectDenotes(ps: seq<(string, Value)>, fields: Fields)
    requires forall p :: p in ps ==> LetterKey(p.0) && Stands(p, fields)
    requires forall key :: key in fields ==> HasKey(ps, key)
    ensures Denotes(Object([], PlainMembers(ps)), Obj(fields))
  {
    var ms := PlainMembers(ps);
    forall i | 0 <= i < |ms| ensures MemberDenotes(ms[i], fields) {
      KeyIsPlain(ps[i].0);
    }
    forall key | key in fields ensures SomeSpells(ms, key) {
      var i :| 0 <= i < |ps| && ps[i].0 == key;
      KeyIsPlain(ps[i].0);
      assert Spells(ms[i].key, key);
    }
  }

  lemma {:induction false} PlainObjectIsUnambiguous(ps: seq<(string, Value)>)
    requires forall p :: p in ps ==> LetterKey(p.0) && Unambiguous(p.1)
    requires forall i, k :: 0 <= i < k < |ps| ==> ps[i].0 != ps[k].0
    ensures Unambiguous(Object([], PlainMembers(ps)))
  {
    var ms := PlainMembers(ps);
    forall i, k | 0 <= i < k < |ms| ensures Decoded(ms[i].key) != Decoded(ms[k].key) {
      KeyIsPlain(ps[i].0);
      KeyIsPlain(ps[k].0);
      if Decoded(ms[i].key) == Decoded(ms[k].key) {
        SpellingIsUnique(ms[i].key, ps[i].0, ps[k].0);
      }
    }
  }

  lemma ToAllDenotes()
    ensures Denotes(ToAll(), Obj(map["all" := Bool(true)])) && Unambiguous(ToAll())
  {
    var ps := [("all", Literal(TRUE))];
    assert ps[0].0 == "all";
    PlainObjectDenotes(ps, map["all" := Bool(true)]);
    PlainObjectIsUnambiguous(ps);
  }

  lemma StringMemberStands(key: string, s: seq<Byte>, t: Text, fields: Fields)
    requires LetterKey(key) && Letters(s) && |s| == |t| && forall i :: 0 <= i < |s| ==> s[i] == t[i]
    requires Get(fields, key) == Some(Str(t))
    ensures Stands((key, String(Plains(s))), fields)
  {
    PlainString(s, t);
  }

  /** Five members with the keys of a text message. */
  lemma FiveMembers(p0: (string, Value), p1: (string, Value), p2: (string, Value), p3: (string, Value),
                    p4: (string, Value), fields: Fields)
    requires Stands(p0, fields) && Stands(p1, fields) && Stands(p2, fields) && Stands(p3, fields) && Stands(p4, fields)
    requires p0.0 == "type" && p1.0 == "from" && p2.0 == "name" && p3.0 == "data" && p4.0 == "to"
    requires fields.Keys == {"type", "from", "name", "data", "to"}
    ensures var v := Object([], PlainMembers([p0, p1, p2, p3, p4])); Denotes(v, Obj(fields)) && Unambiguous(v)
  {
    var ps := [p0, p1, p2, p3, p4];
    FiveKeys(ps);
    assert forall p :: p in ps ==> Stands(p, fields);
    PlainObjectDenotes(ps, fields);
    PlainObjectIsUnambiguous(ps);
  }

  lemma FiveKeys(ps: seq<(string, Value)>)
    requires |ps| == 5
    requires ps[0].0 == "type" && ps[1].0 == "from" && ps[2].0 == "name" && ps[3].0 == "data" && ps[4].0 == "to"
    ensures forall key :: key in {"type", "from", "name", "data", "to"} ==> HasKey(ps, key)
    ensures forall i, k :: 0 <= i < k < |ps| ==> ps[i].0 != ps[k].0
  {
  }

  lemma SenderStands(fields: Fields)
    requires Get(fields, "type") == Some(Str(TEXT))
    requires Get(fields, "from") == Some(Str(As(1))) && Get(fields, "name") == Some(Str(As(1)))
    ensures Stands(("type", String(Plains(TEXT))), fields)
    ensures Stands(("from", String(Plains(As(1)))), fields) && Stands(("name", String(Plains(As(1)))), fields)
  {
    StringMemberStands("type", TEXT, TEXT, fields);
    StringMemberStands("from", As(1), As(1), fields);
    StringMemberStands("name", As(1), As(1), fields);
  }

  lemma TextStands(data: seq<Byte>, t: Text)
    requires Letters(data) && |data| == |t| && forall i :: 0 <= i < |data| ==> data[i] == t[i]
    ensures var ps := TextMembers(data);
            var v := Object([], PlainMembers(ps)); Denotes(v, Obj(TextRoot(t))) && Unambiguous(v)
  {
    var root := TextRoot(t);
    SenderStands(root);
    StringMemberStands("data", data, t, root);
    ToAllStands(root);
    FiveMembers(("type", String(Plains(TEXT))), ("from", String(Plains(As(1)))), ("name", String(Plains(As(1)))),
                ("data", String(Plains(data))), ("to", ToAll()), root);
  }

  lemma LongTextDenotes()
    ensures Denotes(LongText().value, Obj(LongRoot())) && Unambiguous(LongText().value)
  {
    TextStands(As(257), As(257));
  }

  lemma ToAllStands(fields: Fields)
    requires Get(fields, "to") == Some(Obj(map["all" := Bool(true)]))
    ensures Stands(("to", ToAll()), fields)
  {
    ToAllDenotes();
  }

  lemma LongTextIsReceivable(maxPayload: nat)
    requires maxPayload >= SHORTEST_LONG_TEXT
    ensures Receivable(LongText(), LongRoot(), maxPayload)
  {
    var text := LongText();
    LongTextIsHarmless();
    LongTextDenotes();
    assert PrintItem(text) == Print(text.value);
    AsciiIsWellFormed(PrintItem(text));
    PreScanDecidesDepthAndNul(text);
  }

  lemma ShortStrings()
    ensures ByteLength(TEXT) == 4 && ByteLength(As(1)) == 1
  {
    LettersEncode(TEXT, TEXT);
    LettersEncode(As(1), As(1));
  }

  lemma TextTarget(data: Text, limits: Limits)
    ensures ValidateTo(TextRoot(data), limits).0
  {
  }

  lemma TextIsAccepted(data: Text, limits: Limits)
    requires 256 < ByteLength(data) <= limits.maxTextBytes
    ensures ValidateChat(TextRoot(data), limits) == Accept(ValidateTo(TextRoot(data), limits).1)
  {
    ShortStrings();
    TextTarget(data, limits);
    var root := TextRoot(data);
    assert IsText(Get(root, "type"), TEXT) && Get(root, "groupId").None? && Get(root, "groupName").None?;
    assert StringInRange(Get(root, "type"), MAX_TYPE_LEN, false);
    assert StringInRange(Get(root, "from"), MAX_USER_ID_LEN, false);
    assert StringInRange(Get(root, "name"), MAX_NAME_LEN, false);
  }

  lemma LongDataIsDiscarded(msg: Fields, data: Text)
    requires Get(msg, "data") == Some(Str(data)) && ByteLength(data) > 256
    ensures !ValidHistoryMessage(msg)
  {
  }

  lemma StoredTextIsDiscarded(data: Text, limits: Limits)
    requires 256 < ByteLength(data) <= limits.maxTextBytes
    ensures ValidateChat(TextRoot(data), limits).Accept?
    ensures !ValidHistoryMessage(MessageLog.Finalize(ValidateChat(TextRoot(data), limits).root, 1, 0))
  {
    TextIsAccepted(data, limits);
    TargetDefaultsKeepOthers(TextRoot(data), limits, "data");
    LongDataIsDiscarded(MessageLog.Finalize(ValidateTo(TextRoot(data), limits).1, 1, 0), data);
  }

  lemma LongRootIsAccepted(limits: Limits)
    requires limits.maxTextBytes > 256
    ensures ValidateChat(LongRoot(), limits).Accept?
    ensures !ValidHistoryMessage(MessageLog.Finalize(ValidateChat(LongRoot(), limits).root, 1, 0))
  {
    LettersEncode(As(257), As(257));
    StoredTextIsDiscarded(As(257), limits);
  }

  /** The shortest witness: a text of 257 bytes that the server receives and stores, and every browser discards. */
  lemma LongTextIsDiscarded(limits: Limits, maxPayload: nat)
    requires limits.maxTextBytes > 256 && maxPayload >= SHORTEST_LONG_TEXT
    ensures Receivable(LongText(), LongRoot(), maxPayload) && ValidateChat(LongRoot(), limits).Accept?
    ensures !ValidHistoryMessage(MessageLog.Finalize(ValidateChat(LongRoot(), limits).root, 1, 0))
  {
    LongTextIsReceivable(maxPayload);
    LongRootIsAccepted(limits);
  }

  /**
   For the configurable numbers of clients (1 to 16), the browser accepts all that the server stores
   exactly if at most 256 bytes of text are configured, or frames too short for a text of 257 bytes.
   */
  lemma BrowserAcceptsExactly(limits: Limits, maxPayload: nat)
    requires limits.maxClients <= 16
    ensures BrowserAcceptsAllStored(limits, maxPayload) <==>
            limits.maxTextBytes <= 256 || maxPayload < SHORTEST_LONG_TEXT
  {
    if limits.maxTextBytes <= 256 || maxPayload < SHORTEST_LONG_TEXT {
      forall text: Item, root: Fields, id: nat, timestamp: int
        | Receivable(text, root, maxPayload) && ValidateChat(root, limits).Accept?
          && 1 <= id <= MessageIdStore.MAX_SAFE_ID
        ensures ValidHistoryMessage(MessageLog.Finalize(ValidateChat(root, limits).root, id, timestamp))
      {
        ShortFramesAreAccepted(text, root, limits, maxPayload, id, timestamp);
      }
    } else {
      LongTextIsDiscarded(limits, maxPayload);
    }
  }

  lemma ShortFramesAreAccepted(text: Item, root: Fields, limits: Limits, maxPayload: nat, id: nat, timestamp: int)
    requires limits.maxClients <= 16 && (limits.maxTextBytes <= 256 || maxPayload < SHORTEST_LONG_TEXT)
    requires Receivable(text, root, maxPayload) && ValidateChat(root, limits).Accept?
    requires 1 <= id <= MessageIdStore.MAX_SAFE_ID
    ensures ValidHistoryMessage(MessageLog.Finalize(ValidateChat(root, limits).root, id, timestamp))
  {
    if !ValidHistoryMessage(MessageLog.Finalize(ValidateChat(root, limits).root, id, timestamp)) {
      DiscardedIsLong(root, limits, id, timestamp);
      LongMessageLength(text, root, limits);
      assert false;
    }
  }
}
