/**
 The guard in front of the JSON parser: a byte scan that bounds the nesting depth and rejects
 escaped NULs before any recursion, and the duplicate-key check on the parsed tree.
 Texts are those of sections 2 to 7 of RFC 8259, whitespace included.
 */
module JsonGuard {
  import opened Arithmetic
  import opened Bytes
  import opened ChatTypes

  const MAX_JSON_NESTING_DEPTH := 16

  const QUOTE: Byte := 0x22
  const BACKSLASH: Byte := 0x5C
  const COMMA: Byte := 0x2C
  const COLON: Byte := 0x3A
  const LBRACKET: Byte := 0x5B
  const RBRACKET: Byte := 0x5D
  const LBRACE: Byte := 0x7B
  const RBRACE: Byte := 0x7D
  const U0000: seq<Byte> := [0x75, 0x30, 0x30, 0x30, 0x30]

  /** One character of a string: unescaped (section 7), a two-character escape, or \uXXXX. */
  datatype Chunk = Plain(b: Byte) | Escape(b: Byte) | Unicode(h: seq<Byte>)

  /** A JSON text as a tree that keeps the insignificant whitespace of section 2. */
  datatype Value =
    | Literal(text: seq<Byte>)
    | String(chunks: seq<Chunk>)
    | Array(gap: seq<Byte>, items: seq<Item>)
    | Object(gap: seq<Byte>, members: seq<Member>)
  datatype Item = Item(before: seq<Byte>, value: Value, after: seq<Byte>)
  datatype Member = Member(beforeKey: seq<Byte>, key: seq<Chunk>, afterKey: seq<Byte>, item: Item)

  predicate IsSpace(b: Byte) {
    b == 0x20 || b == 0x09 || b == 0x0A || b == 0x0D
  }

  predicate Space(s: seq<Byte>) {
    forall i :: 0 <= i < |s| ==> IsSpace(s[i])
  }

  /** Characters of numbers and of the names true, false and null. */
  predicate LiteralByte(b: Byte) {
    0x30 <= b <= 0x39 || 0x61 <= b <= 0x7A || b == 0x45 || b == 0x2B || b == 0x2D || b == 0x2E
  }

  predicate HexDigit(b: Byte) {
    0x30 <= b <= 0x39 || 0x41 <= b <= 0x46 || 0x61 <= b <= 0x66
  }

  predicate GoodChunk(c: Chunk) {
    match c
    case Plain(b) => b >= 0x20 && b != QUOTE && b != BACKSLASH
    case Escape(b) => b in [QUOTE, BACKSLASH, 0x2F, 0x62, 0x66, 0x6E, 0x72, 0x74]
    case Unicode(h) => |h| == 4 && forall i :: 0 <= i < 4 ==> HexDigit(h[i])
  }

  predicate GoodChunks(cs: seq<Chunk>) {
    forall i :: 0 <= i < |cs| ==> GoodChunk(cs[i])
  }

  predicate Good(v: Value)
    decreases v, 1
  {
    match v
    case Literal(text) => text != [] && forall i :: 0 <= i < |text| ==> LiteralByte(text[i])
    case String(chunks) => GoodChunks(chunks)
    case Array(gap, items) => Space(gap) && GoodItems(items)
    case Object(gap, members) => Space(gap) && GoodMembers(members)
  }

  predicate GoodItem(item: Item)
    decreases item, 2
  {
    Space(item.before) && Good(item.value) && Space(item.after)
  }

  predicate GoodItems(items: seq<Item>)
    decreases items, 0
  {
    items != [] ==> GoodItem(items[0]) && GoodItems(items[1..])
  }

  predicate GoodMembers(members: seq<Member>)
    decreases members, 0
  {
    members != [] ==>
      && Space(members[0].beforeKey) && GoodChunks(members[0].key) && Space(members[0].afterKey)
      && GoodItem(members[0].item) && GoodMembers(members[1..])
  }

  // ---- Printing, section by section of the grammar ----

  function PrintChunk(c: Chunk): seq<Byte> {
    match c
    case Plain(b) => [b]
    case Escape(b) => [BACKSLASH, b]
    case Unicode(h) => [BACKSLASH, 0x75] + h
  }

  function PrintChunks(cs: seq<Chunk>): seq<Byte> {
    if cs == [] then [] else PrintChunk(cs[0]) + PrintChunks(cs[1..])
  }

  function PrintString(cs: seq<Chunk>): seq<Byte> {
    [QUOTE] + (PrintChunks(cs) + [QUOTE])
  }

  function Print(v: Value): seq<Byte>
    decreases v, 1
  {
    match v
    case Literal(text) => text
    case String(chunks) => PrintString(chunks)
    case Array(gap, items) => [LBRACKET] + ((if items == [] then gap else PrintItems(items)) + [RBRACKET])
    case Object(gap, members) => [LBRACE] + ((if members == [] then gap else PrintMembers(members)) + [RBRACE])
  }

  function PrintItem(item: Item): seq<Byte>
    decreases item, 2
  {
    item.before + (Print(item.value) + item.after)
  }

  function PrintItems(items: seq<Item>): seq<Byte>
    requires items != []
    decreases items, 0
  {
    if |items| == 1 then PrintItem(items[0])
    else PrintItem(items[0]) + ([COMMA] + PrintItems(items[1..]))
  }

  function PrintMember(m: Member): seq<Byte>
    decreases m, 3
  {
    m.beforeKey + (PrintString(m.key) + (m.afterKey + ([COLON] + PrintItem(m.item))))
  }

  function PrintMembers(members: seq<Member>): seq<Byte>
    requires members != []
    decreases members, 0
  {
    if |members| == 1 then PrintMember(members[0])
    else PrintMember(members[0]) + ([COMMA] + PrintMembers(members[1..]))
  }

  // ---- What the scan is for ----

  /** Objects and arrays inside one another, counting the outermost. */
  function Nesting(v: Value): nat
    decreases v, 1
  {
    match v
    case Literal(_) => 0
    case String(_) => 0
    case Array(_, items) => 1 + NestingItems(items)
    case Object(_, members) => 1 + NestingMembers(members)
  }

  function NestingItems(items: seq<Item>): nat
    decreases items, 0
  {
    if items == [] then 0 else Max(Nesting(items[0].value), NestingItems(items[1..]))
  }

  function NestingMembers(members: seq<Member>): nat
    decreases members, 0
  {
    if members == [] then 0 else Max(Nesting(members[0].item.value), NestingMembers(members[1..]))
  }

  predicate NulChunk(c: Chunk) {
    c.Unicode? && c.h == [0x30, 0x30, 0x30, 0x30]
  }

  predicate NulInChunks(cs: seq<Chunk>) {
    exists i :: 0 <= i < |cs| && NulChunk(cs[i])
  }

  /** Some string of the text, key or value, holds an escaped NUL. */
  predicate EscapedNul(v: Value)
    decreases v, 1
  {
    match v
    case Literal(_) => false
    case String(chunks) => NulInChunks(chunks)
    case Array(_, items) => EscapedNulItems(items)
    case Object(_, members) => EscapedNulMembers(members)
  }

  predicate EscapedNulItems(items: seq<Item>)
    decreases items, 0
  {
    items != [] && (EscapedNul(items[0].value) || EscapedNulItems(items[1..]))
  }

  predicate EscapedNulMembers(members: seq<Member>)
    decreases members, 0
  {
    members != [] &&
    (NulInChunks(members[0].key) || EscapedNul(members[0].item.value) || EscapedNulMembers(members[1..]))
  }

  // ---- The scan ----

  /** The scan's verdict on the rest of a text, entered at `depth` and inside a string or not. */
  predicate Scan(s: seq<Byte>, depth: nat, inString: bool)
    decreases |s|
  {
    if s == [] then !inString && depth == 0
    else if s[0] == 0 then false
    else if inString then
      if s[0] < 0x20 then false
      else if s[0] == BACKSLASH then
        |s| > 1 && !(|s| > 5 && s[1..6] == U0000) && Scan(s[2..], depth, true)
      else Scan(s[1..], depth, s[0] != QUOTE)
    else if s[0] == QUOTE then Scan(s[1..], depth, true)
    else if s[0] == LBRACE || s[0] == LBRACKET then
      depth + 1 <= MAX_JSON_NESTING_DEPTH && Scan(s[1..], depth + 1, false)
    else if s[0] == RBRACE || s[0] == RBRACKET then
      depth != 0 && Scan(s[1..], depth - 1, false)
    else (s[0] >= 0x20 || IsSpace(s[0])) && Scan(s[1..], depth, false)
  }

  method PreScan(payload: seq<Byte>) returns (ok: bool)
    ensures ok <==> Scan(payload, 0, false)
  {
    var length := |payload|;
    var depth: nat := 0;
    var inString := false;
    var i := 0;
    while i < length
      invariant 0 <= i <= length
      invariant Scan(payload, 0, false) <==> Scan(payload[i..], depth, inString)
    {
      ghost var s := payload[i..];
      var ch := payload[i];
      assert s[1..] == payload[i + 1..];
      if ch == 0 {
        return false;
      }
      if inString {
        if ch < 0x20 {
          return false;
        }
        if ch == BACKSLASH {
          if i + 1 >= length {
            return false;
          }
          if i + 5 < length && payload[i + 1..i + 6] == U0000 {
            assert s[1..6] == payload[i + 1..i + 6];
            return false;
          }
          if i + 5 < length {
            assert s[1..6] == payload[i + 1..i + 6];
          }
          assert s[2..] == payload[i + 2..];
          i := i + 1;
        } else if ch == QUOTE {
          inString := false;
        }
      } else if ch == QUOTE {
        inString := true;
      } else if ch == LBRACE || ch == LBRACKET {
        depth := depth + 1;
        if depth > MAX_JSON_NESTING_DEPTH {
          return false;
        }
      } else if ch == RBRACE || ch == RBRACKET {
        if depth == 0 {
          return false;
        }
        depth := depth - 1;
      } else if ch < 0x20 && ch != 0x09 && ch != 0x0A && ch != 0x0D {
        return false;
      }
      i := i + 1;
    }
    return !inString && depth == 0;
  }

  // ---- The scan on printed texts ----

  lemma {:induction false} ScanPlain(text: seq<Byte>, rest: seq<Byte>, depth: nat)
    requires Space(text) || forall i :: 0 <= i < |text| ==> LiteralByte(text[i])
    ensures Scan(text + rest, depth, false) == Scan(rest, depth, false)
  {
    if text == [] {
      assert text + rest == rest;
    } else {
      assert IsSpace(text[0]) || LiteralByte(text[0]);
      assert (text + rest)[1..] == text[1..] + rest;
      ScanPlain(text[1..], rest, depth);
    }
  }

  lemma {:induction false} ScanChunks(cs: seq<Chunk>, rest: seq<Byte>, depth: nat)
    requires GoodChunks(cs)
    ensures Scan(PrintChunks(cs) + [QUOTE] + rest, depth, true) <==> !NulInChunks(cs) && Scan(rest, depth, false)
  {
    var s := PrintChunks(cs) + [QUOTE] + rest;
    if cs == [] {
      assert s == [QUOTE] + rest;
      assert s[1..] == rest;
    } else {
      var tail := PrintChunks(cs[1..]) + [QUOTE] + rest;
      assert s == PrintChunk(cs[0]) + tail;
      assert NulInChunks(cs) <==> NulChunk(cs[0]) || NulInChunks(cs[1..]) by {
        if NulInChunks(cs[1..]) {
          var i :| 0 <= i < |cs[1..]| && NulChunk(cs[1..][i]);
          assert NulChunk(cs[i + 1]);
        }
      }
      ScanChunk(cs[0], tail, depth);
      ScanChunks(cs[1..], rest, depth);
    }
  }

  lemma ScanChunk(c: Chunk, tail: seq<Byte>, depth: nat)
    requires GoodChunk(c)
    ensures Scan(PrintChunk(c) + tail, depth, true) <==> !NulChunk(c) && Scan(tail, depth, true)
  {
    var s := PrintChunk(c) + tail;
    match c {
      case Plain(b) =>
        assert s[1..] == tail;
      case Escape(b) =>
        assert s[2..] == tail;
        if |s| > 5 {
          assert s[1..6][0] == b;
        }
      case Unicode(h) =>
        assert s[1..6] == [0x75] + h;
        assert U0000 == [0x75] + [0x30, 0x30, 0x30, 0x30];
        if s[1..6] == U0000 {
          assert h == s[1..6][1..];
        }
        assert s[2..] == h + tail;
        ScanHex(h, tail, depth);
    }
  }

  lemma {:induction false} ScanHex(h: seq<Byte>, tail: seq<Byte>, depth: nat)
    requires forall i :: 0 <= i < |h| ==> HexDigit(h[i])
    ensures Scan(h + tail, depth, true) == Scan(tail, depth, true)
  {
    if h == [] {
      assert h + tail == tail;
    } else {
      assert HexDigit(h[0]);
      assert (h + tail)[1..] == h[1..] + tail;
      ScanHex(h[1..], tail, depth);
    }
  }

  lemma ScanString(cs: seq<Chunk>, rest: seq<Byte>, depth: nat)
    requires GoodChunks(cs)
    ensures Scan(PrintString(cs) + rest, depth, false) <==> !NulInChunks(cs) && Scan(rest, depth, false)
  {
    var s := PrintString(cs) + rest;
    assert s[1..] == PrintChunks(cs) + [QUOTE] + rest;
    ScanChunks(cs, rest, depth);
  }

  /** A value within the depth bound and free of escaped NULs, seen from inside `depth` containers. */
  predicate Fits(v: Value, depth: nat) {
    depth + Nesting(v) <= MAX_JSON_NESTING_DEPTH && !EscapedNul(v)
  }

  lemma {:induction false} ScanValue(v: Value, rest: seq<Byte>, depth: nat)
    requires Good(v) && depth <= MAX_JSON_NESTING_DEPTH
    ensures Scan(Print(v) + rest, depth, false) <==> Fits(v, depth) && Scan(rest, depth, false)
    decreases v, 1
  {
    match v {
      case Literal(text) =>
        ScanPlain(text, rest, depth);
      case String(chunks) =>
        ScanString(chunks, rest, depth);
      case Array(_, _) =>
        ScanArray(v, rest, depth);
      case Object(_, _) =>
        ScanObject(v, rest, depth);
    }
  }

  /** One container: its opening byte, anything that scans back to where it began, its closing byte. */
  lemma ScanBrackets(open: Byte, inner: seq<Byte>, close: Byte, rest: seq<Byte>, depth: nat)
    requires (open == LBRACKET && close == RBRACKET) || (open == LBRACE && close == RBRACE)
    ensures Scan([open] + (inner + [close]) + rest, depth, false) <==>
            depth + 1 <= MAX_JSON_NESTING_DEPTH && Scan(inner + ([close] + rest), depth + 1, false)
    ensures Scan([close] + rest, depth + 1, false) == Scan(rest, depth, false)
  {
    var s := [open] + (inner + [close]) + rest;
    assert s[1..] == inner + ([close] + rest);
    assert ([close] + rest)[1..] == rest;
  }

  lemma EmptyContainer(v: Value)
    requires (v.Array? && v.items == []) || (v.Object? && v.members == [])
    ensures Nesting(v) == 1 && !EscapedNul(v)
  {
    if v.Array? {
      assert !EscapedNulItems(v.items);
    } else {
      assert !EscapedNulMembers(v.members);
    }
  }

  lemma {:induction false} ScanArray(v: Value, rest: seq<Byte>, depth: nat)
    requires v.Array? && Good(v) && depth <= MAX_JSON_NESTING_DEPTH
    ensures Scan(Print(v) + rest, depth, false) <==> Fits(v, depth) && Scan(rest, depth, false)
    decreases v, 0
  {
    var inner := if v.items == [] then v.gap else PrintItems(v.items);
    ScanBrackets(LBRACKET, inner, RBRACKET, rest, depth);
    if v.items == [] {
      ScanPlain(v.gap, [RBRACKET] + rest, depth + 1);
      EmptyContainer(v);
    } else if depth + 1 <= MAX_JSON_NESTING_DEPTH {
      ScanItems(v.items, [RBRACKET] + rest, depth + 1);
    }
  }

  lemma {:induction false} ScanObject(v: Value, rest: seq<Byte>, depth: nat)
    requires v.Object? && Good(v) && depth <= MAX_JSON_NESTING_DEPTH
    ensures Scan(Print(v) + rest, depth, false) <==> Fits(v, depth) && Scan(rest, depth, false)
    decreases v, 0
  {
    var inner := if v.members == [] then v.gap else PrintMembers(v.members);
    ScanBrackets(LBRACE, inner, RBRACE, rest, depth);
    if v.members == [] {
      ScanPlain(v.gap, [RBRACE] + rest, depth + 1);
      EmptyContainer(v);
    } else if depth + 1 <= MAX_JSON_NESTING_DEPTH {
      ScanMembers(v.members, [RBRACE] + rest, depth + 1);
    }
  }

  lemma {:induction false} ScanItem(item: Item, rest: seq<Byte>, depth: nat)
    requires GoodItem(item) && depth <= MAX_JSON_NESTING_DEPTH
    ensures Scan(PrintItem(item) + rest, depth, false) <==> Fits(item.value, depth) && Scan(rest, depth, false)
    decreases item, 2
  {
    assert PrintItem(item) + rest == item.before + (Print(item.value) + (item.after + rest));
    ScanPlain(item.before, Print(item.value) + (item.after + rest), depth);
    ScanValue(item.value, item.after + rest, depth);
    ScanPlain(item.after, rest, depth);
  }

  lemma {:induction false} ScanItems(items: seq<Item>, rest: seq<Byte>, depth: nat)
    requires items != [] && GoodItems(items) && depth <= MAX_JSON_NESTING_DEPTH
    ensures Scan(PrintItems(items) + rest, depth, false) <==>
            depth + NestingItems(items) <= MAX_JSON_NESTING_DEPTH && !EscapedNulItems(items) &&
            Scan(rest, depth, false)
    decreases items, 0
  {
    if |items| == 1 {
      ScanItem(items[0], rest, depth);
      assert items[1..] == [];
    } else {
      var tail := PrintItems(items[1..]) + rest;
      assert PrintItems(items) + rest == PrintItem(items[0]) + ([COMMA] + tail);
      ScanItem(items[0], [COMMA] + tail, depth);
      assert ([COMMA] + tail)[1..] == tail;
      ScanItems(items[1..], rest, depth);
    }
  }

  lemma {:induction false} ScanMember(m: Member, rest: seq<Byte>, depth: nat)
    requires Space(m.beforeKey) && GoodChunks(m.key) && Space(m.afterKey) && GoodItem(m.item)
    requires depth <= MAX_JSON_NESTING_DEPTH
    ensures Scan(PrintMember(m) + rest, depth, false) <==>
            !NulInChunks(m.key) && Fits(m.item.value, depth) && Scan(rest, depth, false)
    decreases m, 3
  {
    var value := PrintItem(m.item) + rest;
    var colon := [COLON] + value;
    assert PrintMember(m) + rest == m.beforeKey + (PrintString(m.key) + (m.afterKey + colon));
    ScanPlain(m.beforeKey, PrintString(m.key) + (m.afterKey + colon), depth);
    ScanString(m.key, m.afterKey + colon, depth);
    ScanPlain(m.afterKey, colon, depth);
    assert colon[1..] == value;
    ScanItem(m.item, rest, depth);
  }

  lemma {:induction false} ScanMembers(members: seq<Member>, rest: seq<Byte>, depth: nat)
    requires members != [] && GoodMembers(members) && depth <= MAX_JSON_NESTING_DEPTH
    ensures Scan(PrintMembers(members) + rest, depth, false) <==>
            depth + NestingMembers(members) <= MAX_JSON_NESTING_DEPTH && !EscapedNulMembers(members) &&
            Scan(rest, depth, false)
    decreases members, 0
  {
    if |members| == 1 {
      ScanMember(members[0], rest, depth);
      assert members[1..] == [];
    } else {
      var tail := PrintMembers(members[1..]) + rest;
      assert PrintMembers(members) + rest == PrintMember(members[0]) + ([COMMA] + tail);
      ScanMember(members[0], [COMMA] + tail, depth);
      assert ([COMMA] + tail)[1..] == tail;
      ScanMembers(members[1..], rest, depth);
    }
  }

  /**
   On every JSON text, whatever its whitespace, the scan accepts exactly when objects and arrays
   nest at most 16 deep and no string holds an escaped NUL.
   */
  lemma PreScanDecidesDepthAndNul(text: Item)
    requires GoodItem(text)
    ensures Scan(PrintItem(text), 0, false) <==>
            Nesting(text.value) <= MAX_JSON_NESTING_DEPTH && !EscapedNul(text.value)
  {
    assert PrintItem(text) + [] == PrintItem(text);
    ScanItem(text, [], 0);
  }

  // ---- Texts that are no JSON ----

  /** A string that does not end, or has a raw control byte in it, is refused wherever it is. */
  lemma BadStringIsRefused(cs: seq<Chunk>, rest: seq<Byte>, depth: nat)
    requires GoodChunks(cs) && (rest == [] || rest[0] < 0x20)
    ensures !Scan([QUOTE] + (PrintChunks(cs) + rest), depth, false)
  {
    assert ([QUOTE] + (PrintChunks(cs) + rest))[1..] == PrintChunks(cs) + rest;
    ScanToBadByte(cs, rest, depth);
  }

  lemma {:induction false} ScanToBadByte(cs: seq<Chunk>, rest: seq<Byte>, depth: nat)
    requires GoodChunks(cs) && (rest == [] || rest[0] < 0x20)
    ensures !Scan(PrintChunks(cs) + rest, depth, true)
  {
    if cs == [] {
      assert PrintChunks(cs) + rest == rest;
    } else {
      var tail := PrintChunks(cs[1..]) + rest;
      assert PrintChunks(cs) + rest == PrintChunk(cs[0]) + tail;
      ScanChunk(cs[0], tail, depth);
      ScanToBadByte(cs[1..], rest, depth);
    }
  }

  /** So is a control byte outside strings that is no white space, and a bracket that closes nothing. */
  lemma StrayByteIsRefused(text: Item, b: Byte, rest: seq<Byte>)
    requires GoodItem(text) && ((b < 0x20 && !IsSpace(b)) || b == RBRACE || b == RBRACKET)
    ensures !Scan(PrintItem(text) + ([b] + rest), 0, false)
  {
    ScanItem(text, [b] + rest, 0);
  }

  /** And a bracket that is never closed. */
  lemma UnclosedIsRefused(bracket: Byte, text: Item)
    requires GoodItem(text) && (bracket == LBRACE || bracket == LBRACKET)
    ensures !Scan([bracket] + PrintItem(text), 0, false)
  {
    var s := [bracket] + PrintItem(text);
    assert s[1..] == PrintItem(text) + [];
    ScanItem(text, [], 1);
  }

  // ---- Duplicate keys in the parsed tree ----

  /** The parser's tree. A member without a key string is malformed. */
  datatype Node = ObjectNode(keys: seq<Option<Text>>, children: seq<Node>) | ArrayNode(children: seq<Node>) | LeafNode

  predicate ValidNode(n: Node)
    decreases n
  {
    match n
    case ObjectNode(keys, children) => |keys| == |children| && forall c :: c in children ==> ValidNode(c)
    case ArrayNode(children) => forall c :: c in children ==> ValidNode(c)
    case LeafNode => true
  }

  function Children(n: Node): seq<Node> {
    if n.LeafNode? then [] else n.children
  }

  /** The node that a path of child positions leads to. */
  function At(n: Node, path: seq<nat>): Option<Node>
    decreases |path|
  {
    if path == [] then Some(n)
    else if path[0] < |Children(n)| then At(Children(n)[path[0]], path[1..])
    else None
  }

  /** An object with two equal keys, or a member without one. */
  predicate RepeatsKey(n: Node) {
    n.ObjectNode? &&
    ((exists i :: 0 <= i < |n.keys| && n.keys[i].None?) ||
     (exists i, j :: 0 <= i < j < |n.keys| && n.keys[i] == n.keys[j]))
  }

  /** Some object anywhere in the tree repeats a key. */
  ghost predicate RepeatsSomewhere(n: Node) {
    exists path :: At(n, path).Some? && RepeatsKey(At(n, path).value)
  }

  lemma RepeatsHereOrBelow(n: Node)
    ensures RepeatsSomewhere(n) <==>
            RepeatsKey(n) || exists k :: 0 <= k < |Children(n)| && RepeatsSomewhere(Children(n)[k])
  {
    if RepeatsKey(n) {
      assert At(n, []) == Some(n);
    }
    forall k | 0 <= k < |Children(n)| && RepeatsSomewhere(Children(n)[k]) ensures RepeatsSomewhere(n) {
      var path :| At(Children(n)[k], path).Some? && RepeatsKey(At(Children(n)[k], path).value);
      var longer: seq<nat> := [k] + path;
      assert longer[1..] == path;
      assert At(n, longer) == At(Children(n)[k], path);
    }
    if RepeatsSomewhere(n) && !RepeatsKey(n) {
      var path :| At(n, path).Some? && RepeatsKey(At(n, path).value);
      assert path != [];
      var child := Children(n)[path[0]];
      assert At(child, path[1..]) == At(n, path);
      assert RepeatsSomewhere(child);
    }
  }

  method HasDuplicateKeys(n: Node) returns (duplicate: bool)
    requires ValidNode(n)
    ensures duplicate <==> RepeatsSomewhere(n)
    decreases n
  {
    RepeatsHereOrBelow(n);
    if n.ObjectNode? {
      for i := 0 to |n.children|
        invariant forall k :: 0 <= k < i ==> n.keys[k].Some? && !RepeatsSomewhere(n.children[k])
        invariant forall k, j :: 0 <= k < i && k < j < |n.keys| ==> n.keys[k] != n.keys[j]
      {
        if n.keys[i].None? {
          return true;
        }
        for other := i + 1 to |n.children|
          invariant forall j :: i < j < other ==> n.keys[i] != n.keys[j]
        {
          if n.keys[other].Some? && n.keys[i].value == n.keys[other].value {
            return true;
          }
        }
        assert n.children[i] in n.children && Children(n)[i] == n.children[i];
        var below := HasDuplicateKeys(n.children[i]);
        if below {
          return true;
        }
      }
    } else if n.ArrayNode? {
      for i := 0 to |n.children|
        invariant forall k :: 0 <= k < i ==> !RepeatsSomewhere(n.children[k])
      {
        assert n.children[i] in n.children && Children(n)[i] == n.children[i];
        var below := HasDuplicateKeys(n.children[i]);
        if below {
          return true;
        }
      }
    }
    return false;
  }
}
