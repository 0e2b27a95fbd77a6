/**
 UTF-8 as section 3 of RFC 3629 defines it, the syntax of its section 4, and the
 byte-wise acceptor that guards every text the server parses.
 */
module Utf8 {
  import opened Bytes

  /** A Unicode scalar value: any code point that is not a surrogate. */
  type Scalar = c: int | 0 <= c < 0xD800 || 0xDFFF < c <= 0x10FFFF

  /** The table of section 3 of RFC 3629. */
  function Encode(c: Scalar): (r: seq<Byte>)
    ensures 1 <= |r| <= 4
  {
    if c < 0x80 then [c]
    else if c < 0x800 then [0xC0 + c / 64, 0x80 + c % 64]
    else if c < 0x10000 then [0xE0 + c / 64 / 64, 0x80 + c / 64 % 64, 0x80 + c % 64]
    else [0xF0 + c / 64 / 64 / 64, 0x80 + c / 64 / 64 % 64, 0x80 + c / 64 % 64, 0x80 + c % 64]
  }

  function EncodeAll(cs: seq<Scalar>): seq<Byte> {
    if cs == [] then [] else Encode(cs[0]) + EncodeAll(cs[1..])
  }

  predicate Tail(b: Byte) {
    0x80 <= b <= 0xBF
  }

  /** The length of the UTF8-char at the front of `s` by the syntax of section 4 of RFC 3629; 0 if there is none. */
  function HeadLength(s: seq<Byte>): (n: nat)
    ensures n <= |s| && n <= 4
  {
    if |s| >= 1 && s[0] <= 0x7F then 1
    else if |s| >= 2 && 0xC2 <= s[0] <= 0xDF && Tail(s[1]) then 2
    else if |s| >= 3 && Tail(s[2]) &&
            (|| (s[0] == 0xE0 && 0xA0 <= s[1] <= 0xBF)
             || (0xE1 <= s[0] <= 0xEC && Tail(s[1]))
             || (s[0] == 0xED && 0x80 <= s[1] <= 0x9F)
             || (0xEE <= s[0] <= 0xEF && Tail(s[1]))) then 3
    else if |s| >= 4 && Tail(s[2]) && Tail(s[3]) &&
            (|| (s[0] == 0xF0 && 0x90 <= s[1] <= 0xBF)
             || (0xF1 <= s[0] <= 0xF3 && Tail(s[1]))
             || (s[0] == 0xF4 && 0x80 <= s[1] <= 0x8F)) then 4
    else 0
  }

  /** UTF8-octets of section 4 of RFC 3629: a sequence of UTF8-char. */
  predicate WellFormed(s: seq<Byte>)
    decreases |s|
  {
    s == [] || (HeadLength(s) > 0 && WellFormed(s[HeadLength(s)..]))
  }

  /** The first `j` continuation bytes after the lead byte, folded in six bits at a time. */
  function Fold(lead: int, s: seq<Byte>, j: nat): int
    requires j < |s|
  {
    if j == 0 then lead else Fold(lead, s, j - 1) * 64 + s[j] % 64
  }

  lemma SixBits(high: int, low: int)
    requires 0 <= low < 64
    ensures (64 * high + low) / 64 == high && (64 * high + low) % 64 == low
  {
  }

  /** The scalar that a UTF8-char at the front of `s` encodes. */
  function DecodeHead(s: seq<Byte>): (c: Scalar)
    requires HeadLength(s) > 0
    ensures Encode(c) == s[..HeadLength(s)]
  {
    match HeadLength(s)
    case 1 => s[0]
    case 2 => Decode2(s[0], s[1])
    case 3 => Decode3(s[0], s[1], s[2])
    case 4 => Decode4(s[0], s[1], s[2], s[3])
  }

  function Decode2(a: int, b: int): (c: Scalar)
    requires 0xC2 <= a <= 0xDF && 0x80 <= b <= 0xBF
    ensures Encode(c) == [a, b]
  {
    SixBits(a - 0xC0, b - 0x80);
    64 * (a - 0xC0) + (b - 0x80)
  }

  function Decode3(a: int, b: int, c: int): (cp: Scalar)
    requires 0xE0 <= a <= 0xEF && 0x80 <= b <= 0xBF && 0x80 <= c <= 0xBF
    requires (a == 0xE0 ==> 0xA0 <= b) && (a == 0xED ==> b <= 0x9F)
    ensures Encode(cp) == [a, b, c]
  {
    var ab := 64 * (a - 0xE0) + (b - 0x80);
    SixBits(a - 0xE0, b - 0x80);
    SixBits(ab, c - 0x80);
    64 * ab + (c - 0x80)
  }

  function Decode4(a: int, b: int, c: int, d: int): (cp: Scalar)
    requires 0xF0 <= a <= 0xF4 && 0x80 <= b <= 0xBF && 0x80 <= c <= 0xBF && 0x80 <= d <= 0xBF
    requires (a == 0xF0 ==> 0x90 <= b) && (a == 0xF4 ==> b <= 0x8F)
    ensures Encode(cp) == [a, b, c, d]
  {
    var ab := 64 * (a - 0xF0) + (b - 0x80);
    var abc := 64 * ab + (c - 0x80);
    SixBits(a - 0xF0, b - 0x80);
    SixBits(ab, c - 0x80);
    SixBits(abc, d - 0x80);
    64 * abc + (d - 0x80)
  }

  /** Encodings are recognised at the front of any text, so no encoding is a prefix of another. */
  lemma EncodingIsHead(c: Scalar, rest: seq<Byte>)
    ensures HeadLength(Encode(c) + rest) == |Encode(c)|
    ensures DecodeHead(Encode(c) + rest) == c
  {
    var e := Encode(c);
    var s := e + rest;
    assert forall k :: 0 <= k < |e| ==> s[k] == e[k];
    var q, q2 := c / 64, c / 64 / 64;
    assert c == 64 * q + c % 64 && q == 64 * q2 + q % 64 && q2 == 64 * (q2 / 64) + q2 % 64;
    if c < 0x80 {
    } else if c < 0x800 {
    } else if c < 0x10000 {
    } else {
    }
  }

  lemma {:induction false} EncodedIsWellFormed(cs: seq<Scalar>)
    ensures WellFormed(EncodeAll(cs))
  {
    if cs != [] {
      var rest := EncodeAll(cs[1..]);
      EncodingIsHead(cs[0], rest);
      assert EncodeAll(cs)[|Encode(cs[0])|..] == rest;
      EncodedIsWellFormed(cs[1..]);
    }
  }

  lemma EncodeCons(c: Scalar, cs: seq<Scalar>)
    ensures EncodeAll([c] + cs) == Encode(c) + EncodeAll(cs)
  {
    assert ([c] + cs)[1..] == cs;
  }

  /** The decoding of a well-formed text. */
  function Decode(s: seq<Byte>): (cs: seq<Scalar>)
    requires WellFormed(s)
    ensures EncodeAll(cs) == s
    decreases |s|
  {
    if s == [] then [] else
      var n := HeadLength(s);
      var cs := Decode(s[n..]);
      EncodeCons(DecodeHead(s), cs);
      assert s == s[..n] + s[n..];
      [DecodeHead(s)] + cs
  }

  /** A text has at most one decoding. */
  lemma {:induction false} DecodingUnique(cs: seq<Scalar>, ds: seq<Scalar>)
    requires EncodeAll(cs) == EncodeAll(ds)
    ensures cs == ds
    decreases |cs|
  {
    if cs == [] {
      assert ds == [];
    } else {
      assert ds != [];
      EncodingIsHead(cs[0], EncodeAll(cs[1..]));
      EncodingIsHead(ds[0], EncodeAll(ds[1..]));
      assert cs[0] == ds[0];
      assert EncodeAll(cs[1..]) == EncodeAll(cs)[|Encode(cs[0])|..];
      assert EncodeAll(ds[1..]) == EncodeAll(ds)[|Encode(ds[0])|..];
      DecodingUnique(cs[1..], ds[1..]);
      assert cs == [cs[0]] + cs[1..] && ds == [ds[0]] + ds[1..];
    }
  }

  /**
   The acceptor: lead byte class, continuation bytes folded in six bits at a time,
   then the overlong, range and surrogate tests. Masks are written arithmetically:
   `b & 0xC0 == 0x80` is `b / 64 == 2` and `b & 0x3F` is `b % 64`.
   */
  method ValidUtf8(payload: seq<Byte>) returns (ok: bool)
    ensures ok <==> WellFormed(payload)
    ensures ok <==> exists cs: seq<Scalar> :: EncodeAll(cs) == payload
  {
    ok := AcceptUtf8(payload);
    if ok {
      assert EncodeAll(Decode(payload)) == payload;
    } else {
      forall cs: seq<Scalar> ensures EncodeAll(cs) != payload {
        EncodedIsWellFormed(cs);
      }
    }
  }

  method AcceptUtf8(payload: seq<Byte>) returns (ok: bool)
    ensures ok <==> WellFormed(payload)
  {
    var length := |payload|;
    var i := 0;
    while i < length
      invariant 0 <= i <= length
      invariant WellFormed(payload) <==> WellFormed(payload[i..])
    {
      ghost var s := payload[i..];
      var codepoint: int := payload[i];
      i := i + 1;
      if codepoint < 0x80 {
        assert payload[i..] == s[1..];
        continue;
      }
      var continuation: nat;
      var minimum: nat;
      if 0xC2 <= codepoint <= 0xDF {
        continuation, minimum, codepoint := 1, 0x80, codepoint % 0x20;
      } else if 0xE0 <= codepoint <= 0xEF {
        continuation, minimum, codepoint := 2, 0x800, codepoint % 0x10;
      } else if 0xF0 <= codepoint <= 0xF4 {
        continuation, minimum, codepoint := 3, 0x10000, codepoint % 0x08;
      } else {
        return false;
      }
      if length - i < continuation {
        return false;
      }
      ghost var lead := codepoint;
      ghost var start := i;
      for j := 0 to continuation
        invariant i == start + j
        invariant forall k :: 1 <= k <= j ==> Tail(s[k])
        invariant codepoint == Fold(lead, s, j)
      {
        var byte := payload[i];
        assert byte == s[j + 1];
        i := i + 1;
        if byte / 64 != 2 {
          NotASequence(s, continuation, j + 1);
          return false;
        }
        codepoint := codepoint * 64 + byte % 64;
      }
      ArithmeticTest(s, continuation, minimum, lead);
      if codepoint < minimum || codepoint > 0x10FFFF || 0xD800 <= codepoint <= 0xDFFF {
        return false;
      }
      assert payload[i..] == s[HeadLength(s)..];
    }
    return true;
  }

  /** How the acceptor classifies a lead byte. */
  predicate LeadClass(b: Byte, continuation: nat, minimum: nat, lead: int) {
    || (0xC2 <= b <= 0xDF && continuation == 1 && minimum == 0x80 && lead == b % 0x20)
    || (0xE0 <= b <= 0xEF && continuation == 2 && minimum == 0x800 && lead == b % 0x10)
    || (0xF0 <= b <= 0xF4 && continuation == 3 && minimum == 0x10000 && lead == b % 0x08)
  }

  lemma NotASequence(s: seq<Byte>, continuation: nat, k: nat)
    requires 1 <= k <= continuation < |s| && !Tail(s[k])
    requires 0xC2 <= s[0]
    requires s[0] <= 0xDF ==> continuation == 1
    requires 0xE0 <= s[0] <= 0xEF ==> continuation == 2
    requires 0xF0 <= s[0] ==> continuation == 3
    ensures HeadLength(s) == 0
  {
    assert k == 1 || k == 2 || k == 3;
  }

  /** The overlong, range and surrogate tests pick out exactly the syntax of section 4. */
  lemma ArithmeticTest(s: seq<Byte>, continuation: nat, minimum: nat, lead: int)
    requires continuation < |s| && LeadClass(s[0], continuation, minimum, lead)
    requires forall k :: 1 <= k <= continuation ==> Tail(s[k])
    ensures var c := Fold(lead, s, continuation);
            HeadLength(s) ==
            if minimum <= c <= 0x10FFFF && !(0xD800 <= c <= 0xDFFF) then continuation + 1 else 0
  {
    match continuation
    case 1 => ArithmeticTest2(s);
    case 2 => ArithmeticTest3(s);
    case 3 => ArithmeticTest4(s);
  }

  lemma FoldStep(lead: int, s: seq<Byte>, j: nat)
    requires 0 < j < |s| && Tail(s[j])
    ensures Fold(lead, s, j) == 64 * Fold(lead, s, j - 1) + (s[j] as int - 0x80)
  {
  }

  lemma ArithmeticTest2(s: seq<Byte>)
    requires |s| >= 2 && 0xC2 <= s[0] <= 0xDF && Tail(s[1])
    ensures Fold(s[0] % 0x20, s, 1) >= 0x80 && Fold(s[0] % 0x20, s, 1) < 0x800
    ensures HeadLength(s) == 2
  {
    FoldStep(s[0] % 0x20, s, 1);
    assert s[0] % 0x20 == s[0] as int - 0xC0;
  }

  lemma ArithmeticTest3(s: seq<Byte>)
    requires |s| >= 3 && 0xE0 <= s[0] <= 0xEF && Tail(s[1]) && Tail(s[2])
    ensures var c := Fold(s[0] % 0x10, s, 2);
            HeadLength(s) == if 0x800 <= c <= 0x10FFFF && !(0xD800 <= c <= 0xDFFF) then 3 else 0
  {
    FoldStep(s[0] % 0x10, s, 2);
    FoldStep(s[0] % 0x10, s, 1);
    var a: int, b: int, c: int := s[0], s[1], s[2];
    assert a % 0x10 == a - 0xE0;
    assert Fold(a % 0x10, s, 2) == 64 * (64 * (a - 0xE0) + (b - 0x80)) + (c - 0x80);
  }

  lemma ArithmeticTest4(s: seq<Byte>)
    requires |s| >= 4 && 0xF0 <= s[0] <= 0xF4 && Tail(s[1]) && Tail(s[2]) && Tail(s[3])
    ensures var c := Fold(s[0] % 0x08, s, 3);
            HeadLength(s) == if 0x10000 <= c <= 0x10FFFF then 4 else 0
  {
    FoldStep(s[0] % 0x08, s, 3);
    FoldStep(s[0] % 0x08, s, 2);
    FoldStep(s[0] % 0x08, s, 1);
    var a: int, b: int, c: int, d: int := s[0], s[1], s[2], s[3];
    assert a % 0x08 == a - 0xF0;
    assert Fold(a % 0x08, s, 3) == 64 * (64 * (64 * (a - 0xF0) + (b - 0x80)) + (c - 0x80)) + (d - 0x80);
  }
}
