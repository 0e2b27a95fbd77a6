/**
 The socket send callback: it completes short writes, retries interrupted calls,
 and shuts the socket down on any runtime failure so that no later frame can be
 appended to a torn one.
 */
module Transport {
  import opened Bytes

  const INT_MAX := 0x7FFF_FFFF

  /** What one call to `send` returns: a byte count, zero, or -1 with an errno. */
  datatype Attempt = Wrote(n: nat) | Zero | Interrupted | WouldBlock | Failed

  datatype Result = Sent(n: nat) | Invalid | Timeout | Fail

  /**
   A connection as its peer sees it. Once the socket is shut down `send` puts nothing
   on the wire any more.
   */
  datatype Link = Link(wire: seq<Byte>, shut: bool)

  /** The bytes a single `send` call of `left` bytes puts on the wire. */
  function Accepted(a: Attempt, left: nat, shut: bool): (n: nat)
    ensures n <= left
  {
    if a.Wrote? && !shut then (if a.n < left then a.n else left) else 0
  }

  /**
   The outcome for `left` unsent bytes when the calls made before the deadline return
   `attempts`, after which the deadline has passed: how many further bytes are written,
   and whether it was a timeout that stopped the loop.
   */
  function Progress(left: nat, attempts: seq<Attempt>, shut: bool): (r: (nat, bool))
    ensures r.0 <= left
    ensures shut ==> r.0 == 0
    decreases |attempts|
  {
    if left == 0 then (0, false)
    else if attempts == [] then (0, true)
    else if attempts[0].Interrupted? then Progress(left, attempts[1..], shut)
    else
      var n := Accepted(attempts[0], left, shut);
      if n == 0 then (0, attempts[0].WouldBlock? && !shut)
      else
        var r := Progress(left - n, attempts[1..], shut);
        (n + r.0, r.1)
  }

  /** One call of the send callback on a whole buffer. */
  function Send(link: Link, buffer: seq<Byte>, attempts: seq<Attempt>): (Link, Result) {
    if |buffer| > INT_MAX then (link, Invalid)
    else
      var (n, late) := Progress(|buffer|, attempts, link.shut);
      if n == |buffer| then (link.(wire := link.wire + buffer), Sent(n))
      else (Link(link.wire + buffer[..n], true), if late then Timeout else Fail)
  }

  class Connection {
    var wire: seq<Byte>
    var shut: bool

    constructor ()
      ensures wire == [] && !shut
    {
      wire, shut := [], false;
    }

    function State(): Link
      reads this
    {
      Link(wire, shut)
    }

    /** One `send` call: a result of the network, applied to the wire. */
    method SendOnce(data: seq<Byte>, a: Attempt) returns (result: int, again: bool, blocked: bool)
      modifies this
      ensures shut == old(shut)
      ensures again <==> a.Interrupted?
      ensures blocked <==> a.WouldBlock? && !shut
      ensures !again ==>
                var n := Accepted(a, |data|, shut);
                wire == old(wire) + data[..n] && (result > 0 <==> n > 0) && (n > 0 ==> result == n)
      ensures again ==> wire == old(wire)
    {
      again, blocked, result := a.Interrupted?, a.WouldBlock? && !shut, -1;
      if !again {
        var n := Accepted(a, |data|, shut);
        wire := wire + data[..n];
        result := if n > 0 then n else if a.Zero? && !shut then 0 else -1;
      }
    }

    /** The callback itself. `attempts` lists what `send` returns until the deadline passes. */
    method SendComplete(buffer: seq<Byte>, attempts: seq<Attempt>) returns (result: Result)
      modifies this
      ensures (State(), result) == Send(old(State()), buffer, attempts)
    {
      var length := |buffer|;
      if length > INT_MAX {
        return Invalid;
      }
      var sent := 0;
      var timedOut := false;
      var clock := 0;
      while sent < length
        invariant 0 <= sent <= length && 0 <= clock <= |attempts|
        invariant wire == old(wire) + buffer[..sent] && shut == old(shut)
        invariant !timedOut
        invariant var all := Progress(length, attempts, shut);
                  var rest := Progress(length - sent, attempts[clock..], shut);
                  all.0 == sent + rest.0 && all.1 == rest.1
        decreases |attempts| - clock
      {
        if clock == |attempts| {
          assert attempts[clock..] == [];
          assert Progress(length, attempts, shut) == (sent, true);
          timedOut := true;
          break;
        }
        ghost var before := attempts[clock..];
        var count, again, blocked := SendOnce(buffer[sent..], attempts[clock]);
        clock := clock + 1;
        assert attempts[clock..] == before[1..];
        if again {
          continue;
        }
        if count <= 0 {
          timedOut := blocked;
          assert Progress(length, attempts, shut) == (sent, blocked);
          break;
        }
        assert buffer[..sent] + buffer[sent..][..count] == buffer[..sent + count];
        sent := sent + count;
      }
      if sent == length {
        assert buffer[..sent] == buffer;
        return Sent(sent);
      }
      shut := true;
      assert Progress(length, attempts, old(shut)) == (sent, timedOut);
      assert wire == old(wire) + buffer[..sent];
      return if timedOut then Timeout else Fail;
    }
  }

  // ---- When a call succeeds ----

  /** A `send` call after which the callback goes on: it was interrupted or accepted something. */
  predicate GoesOn(a: Attempt) {
    a.Interrupted? || (a.Wrote? && a.n > 0)
  }

  predicate AllGoOn(attempts: seq<Attempt>) {
    forall k :: 0 <= k < |attempts| ==> GoesOn(attempts[k])
  }

  /** How many bytes these calls can accept together. */
  function Capacity(attempts: seq<Attempt>): nat {
    if attempts == [] then 0
    else
      var last := attempts[|attempts| - 1];
      Capacity(attempts[..|attempts| - 1]) + (if last.Wrote? then last.n else 0)
  }

  /** Some calls of `send`, none of which stops the callback, accept the whole buffer. */
  ghost predicate Suffices(attempts: seq<Attempt>, length: nat) {
    exists k :: 0 <= k <= |attempts| && AllGoOn(attempts[..k]) && Capacity(attempts[..k]) >= length
  }

  /** `k` is the first call that stops the callback, or the end of its time. */
  predicate StopsAt(attempts: seq<Attempt>, k: nat) {
    && k <= |attempts| && AllGoOn(attempts[..k])
    && (k < |attempts| ==> !GoesOn(attempts[k]))
  }

  lemma {:induction false} CapacityOfCons(a: Attempt, rest: seq<Attempt>)
    ensures Capacity([a] + rest) == (if a.Wrote? then a.n else 0) + Capacity(rest)
  {
    var all := [a] + rest;
    if rest == [] {
      assert all[..0] == [];
    } else {
      assert all[..|all| - 1] == [a] + rest[..|rest| - 1];
      CapacityOfCons(a, rest[..|rest| - 1]);
    }
  }

  lemma {:induction false} CapacityGrows(attempts: seq<Attempt>, j: nat, k: nat)
    requires j <= k <= |attempts|
    ensures Capacity(attempts[..j]) <= Capacity(attempts[..k])
  {
    if j < k {
      CapacityGrows(attempts, j, k - 1);
      assert attempts[..k][..k - 1] == attempts[..k - 1];
    }
  }

  lemma StopIsLast(attempts: seq<Attempt>, j: nat, k: nat)
    requires StopsAt(attempts, k) && j <= |attempts| && AllGoOn(attempts[..j])
    ensures j <= k
  {
    forall i | 0 <= i < j ensures GoesOn(attempts[i]) {
      assert attempts[..j][i] == attempts[i];
    }
  }

  lemma FrontOfCons(attempts: seq<Attempt>, k: nat)
    requires attempts != [] && 0 < k <= |attempts|
    ensures attempts[..k] == [attempts[0]] + attempts[1..][..k - 1]
    ensures Capacity(attempts[..k]) ==
            (if attempts[0].Wrote? then attempts[0].n else 0) + Capacity(attempts[1..][..k - 1])
    ensures AllGoOn(attempts[..k]) <==> GoesOn(attempts[0]) && AllGoOn(attempts[1..][..k - 1])
  {
    assert attempts[..k] == [attempts[0]] + attempts[1..][..k - 1];
    CapacityOfCons(attempts[0], attempts[1..][..k - 1]);
    if AllGoOn(attempts[..k]) {
      var rest := attempts[1..][..k - 1];
      assert GoesOn(attempts[..k][0]);
      forall j | 0 <= j < |rest| ensures GoesOn(rest[j]) {
        assert rest[j] == attempts[..k][j + 1];
      }
    }
  }

  /** What is written of `left` bytes, by the calls up to the one that stops the callback. */
  lemma {:induction false} ProgressIs(left: nat, attempts: seq<Attempt>, k: nat)
    requires StopsAt(attempts, k)
    ensures var (n, late) := Progress(left, attempts, false);
            && n == (if Capacity(attempts[..k]) < left then Capacity(attempts[..k]) else left)
            && (n < left ==> (late <==> k == |attempts| || attempts[k].WouldBlock?))
    decreases |attempts|
  {
    if k == 0 {
      assert attempts[..0] == [];
    } else {
      FrontOfCons(attempts, k);
      var rest := attempts[1..];
      assert StopsAt(rest, k - 1) by {
        assert AllGoOn(attempts[..k]);
        assert k - 1 < |rest| ==> rest[k - 1] == attempts[k];
      }
      if left > 0 {
        ProgressIs(left - Accepted(attempts[0], left, false), rest, k - 1);
      }
    }
  }

  /**
   On an open socket a buffer that is not empty is sent if and only if the calls made before one stops the
   callback accept it all. Otherwise what they accept is written, and the result is a timeout if the time ran
   out or the socket would block, and a failure after any other call. The socket then is shut.
   */
  lemma SendExactly(link: Link, buffer: seq<Byte>, attempts: seq<Attempt>, k: nat)
    requires !link.shut && 0 < |buffer| <= INT_MAX && StopsAt(attempts, k)
    ensures var (after, result) := Send(link, buffer, attempts);
            && (result.Sent? <==> Suffices(attempts, |buffer|))
            && (result.Sent? ==> after == link.(wire := link.wire + buffer) && result.n == |buffer|)
            && (!result.Sent? ==>
                  && Capacity(attempts[..k]) < |buffer|
                  && after == Link(link.wire + buffer[..Capacity(attempts[..k])], true)
                  && result == if k == |attempts| || attempts[k].WouldBlock? then Timeout else Fail)
  {
    ProgressIs(|buffer|, attempts, k);
    if Suffices(attempts, |buffer|) {
      var j :| 0 <= j <= |attempts| && AllGoOn(attempts[..j]) && Capacity(attempts[..j]) >= |buffer|;
      StopIsLast(attempts, j, k);
      CapacityGrows(attempts, j, k);
    }
  }

  datatype Call = Call(buffer: seq<Byte>, attempts: seq<Attempt>)

  /** The link after a run of calls on a fresh connection. */
  function Run(calls: seq<Call>): Link {
    if calls == [] then Link([], false)
    else Send(Run(calls[..|calls| - 1]), calls[|calls| - 1].buffer, calls[|calls| - 1].attempts).0
  }

  function ResultOf(calls: seq<Call>, k: nat): Result
    requires k < |calls|
  {
    Send(Run(calls[..k]), calls[k].buffer, calls[k].attempts).1
  }

  /** The buffers that were reported as sent, back to back. */
  function WholeBuffers(calls: seq<Call>, k: nat): seq<Byte>
    requires k <= |calls|
  {
    if k == 0 then []
    else if ResultOf(calls, k - 1).Sent? then WholeBuffers(calls, k - 1) + calls[k - 1].buffer
    else WholeBuffers(calls, k - 1)
  }

  /** The first call that failed on the socket, or the number of calls if none has. */
  function FirstFailure(calls: seq<Call>, k: nat): (f: nat)
    requires k <= |calls|
    ensures f <= k
  {
    if k == 0 then 0
    else
      var f := FirstFailure(calls, k - 1);
      if f < k - 1 then f
      else if ResultOf(calls, k - 1).Timeout? || ResultOf(calls, k - 1).Fail? then k - 1 else k
  }

  lemma PrefixRun(calls: seq<Call>, k: nat)
    requires 0 < k <= |calls|
    ensures Run(calls[..k]) == Send(Run(calls[..k - 1]), calls[k - 1].buffer, calls[k - 1].attempts).0
  {
    assert calls[..k][..k - 1] == calls[..k - 1];
  }

  /**
   What the callback writes is an exact prefix of its buffer, the whole of it exactly when it
   reports success; success needs an open socket or nothing to send, and a runtime failure
   leaves the socket shut.
   */
  lemma SendIsPrefix(link: Link, buffer: seq<Byte>, attempts: seq<Attempt>)
    ensures var (after, result) := Send(link, buffer, attempts);
            && (exists n :: 0 <= n <= |buffer| && after.wire == link.wire + buffer[..n]
                       && (result.Sent? <==> n == |buffer| <= INT_MAX)
                       && (link.shut || result.Invalid? ==> n == 0))
            && (after.shut <==> link.shut || result.Timeout? || result.Fail?)
            && (result.Sent? ==> result.n == |buffer|)
  {
    var (after, result) := Send(link, buffer, attempts);
    var (n, late) := Progress(|buffer|, attempts, link.shut);
    assert buffer[..|buffer|] == buffer && buffer[..0] == [];
    if |buffer| > INT_MAX {
      assert after.wire == link.wire + buffer[..0];
    } else {
      assert after.wire == link.wire + buffer[..n];
    }
  }

  /**
   Framing over every run of calls: the peer sees whole buffers back to back, followed by at
   most one partial buffer, a strict prefix of the one call whose failure shut the socket.
   */
  lemma {:induction false} StreamFraming(calls: seq<Call>, k: nat)
    requires k <= |calls|
    ensures var link := Run(calls[..k]);
            var f := FirstFailure(calls, k);
            && (link.shut <==> f < k)
            && (!link.shut ==> link.wire == WholeBuffers(calls, k))
            && (link.shut ==>
                  exists n :: 0 <= n < |calls[f].buffer|
                         && link.wire == WholeBuffers(calls, k) + calls[f].buffer[..n])
  {
    if k == 0 {
      assert calls[..0] == [];
      return;
    }
    StreamFraming(calls, k - 1);
    PrefixRun(calls, k);
    var before := Run(calls[..k - 1]);
    var call := calls[k - 1];
    SendIsPrefix(before, call.buffer, call.attempts);
    var (after, result) := Send(before, call.buffer, call.attempts);
    var f := FirstFailure(calls, k - 1);
    var n: nat :| n <= |call.buffer| && after.wire == before.wire + call.buffer[..n]
                  && (result.Sent? <==> n == |call.buffer| <= INT_MAX)
                  && (before.shut || result.Invalid? ==> n == 0);
    if before.shut {
      assert after.wire == before.wire;
      if result.Sent? { assert WholeBuffers(calls, k) == WholeBuffers(calls, k - 1) + []; }
    } else if result.Sent? {
      assert call.buffer[..n] == call.buffer;
    } else if result.Invalid? {
      assert after.wire == before.wire;
    } else {
      assert n < |call.buffer|;
    }
  }
}
