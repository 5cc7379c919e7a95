/**
  The stream connection's read: armed for at least so many bytes, fed piece by piece, and
  armed again by the handler that reads indefinitely.
 */
module ReadAtLeast {
  import opened Bytes

  datatype Code = Ok | InvalidNumBytes | DoubleRead | PassThrough

  /** Which handler a read was given; HandleIndef arms the next read before it returns. */
  datatype Handler = NoHandler | HandleOp | HandleIndef

  /** One call of a handler: what it was told and given, and the bounds of the read it completes. */
  datatype Completion = Completion(ec: Code, data: seq<byte>, needed: nat, len: nat)

  /** A read reported without error carries at least what was asked for and at most what fits. */
  predicate WithinBounds(c: Completion) {
    c.ec == Ok ==> c.needed <= |c.data| <= c.len
  }

  ghost predicate AllWithinBounds(log: seq<Completion>) {
    forall i :: 0 <= i < |log| ==> WithinBounds(log[i])
  }

  // ---------- asking for a read ----------

  /** Whether a read of these bounds is armed. */
  predicate Accepted(reading: bool, numBytes: nat, len: nat) {
    !reading && 0 < numBytes <= len
  }

  /** What a read that is not armed reports: the first test that fails. */
  function RefusalCode(reading: bool, numBytes: nat, len: nat): (code: Code)
    ensures code == InvalidNumBytes <==> numBytes > len
    ensures code == DoubleRead <==> numBytes <= len && reading
    ensures code != PassThrough
  {
    if numBytes > len then InvalidNumBytes else if reading then DoubleRead else Ok
  }

  /** An indefinite read being set up: how often its handler was called so far, and whether a read is armed now. */
  datatype Asking = StillAsking(calls: nat) | Settled(calls: nat)

  /** After some asks: a refused one calls the handler, which asks for the same read again. */
  function AfterAsks(reading: bool, numBytes: nat, len: nat, asks: nat): Asking {
    if asks == 0 then StillAsking(0)
    else
      match AfterAsks(reading, numBytes, len, asks - 1)
      case Settled(calls) => Settled(calls)
      case StillAsking(calls) => if Accepted(reading, numBytes, len) then Settled(calls) else StillAsking(calls + 1)
  }

  lemma {:induction false} AsksAllAlike(reading: bool, numBytes: nat, len: nat, asks: nat)
    ensures AfterAsks(reading, numBytes, len, asks)
         == if asks > 0 && Accepted(reading, numBytes, len) then Settled(0)
            else StillAsking(if Accepted(reading, numBytes, len) then 0 else asks)
  {
    if asks > 0 {
      AsksAllAlike(reading, numBytes, len, asks - 1);
    }
  }

  /** Setting up an indefinite read comes to an end exactly for an idle connection and bounds in range. */
  lemma SettlesIff(reading: bool, numBytes: nat, len: nat)
    ensures (exists asks: nat :: AfterAsks(reading, numBytes, len, asks).Settled?) <==> !reading && 0 < numBytes <= len
  {
    AsksAllAlike(reading, numBytes, len, 1);
    forall asks: nat ensures AfterAsks(reading, numBytes, len, asks).Settled? ==> Accepted(reading, numBytes, len) {
      AsksAllAlike(reading, numBytes, len, asks);
    }
  }

  /** No bytes asked for, more than the buffer holds, or a read already armed: every ask is refused, for ever. */
  lemma {:induction false} RefusedForEver(asks: nat)
    ensures AfterAsks(false, 0, 8, asks) == StillAsking(asks)
    ensures AfterAsks(false, 2, 1, asks) == StillAsking(asks)
    ensures AfterAsks(true, 1, 1, asks) == StillAsking(asks)
  {
    AsksAllAlike(false, 0, 8, asks);
    AsksAllAlike(false, 2, 1, asks);
    AsksAllAlike(true, 1, 1, asks);
  }

  /** All the bytes the completed reads carried, in order. */
  function Delivered(log: seq<Completion>): seq<byte> {
    if log == [] then [] else Delivered(log[..|log| - 1]) + log[|log| - 1].data
  }

  function Concat(inputs: seq<seq<byte>>): seq<byte> {
    if inputs == [] then [] else Concat(inputs[..|inputs| - 1]) + inputs[|inputs| - 1]
  }

  lemma OneMore(log: seq<Completion>, c: Completion)
    ensures Delivered(log + [c]) == Delivered(log) + c.data
  {
    assert (log + [c])[..|log|] == log;
  }

  /** The log grew by reads completed without error, each of the same bounds and within them. */
  ghost predicate Grown(before: seq<Completion>, after: seq<Completion>, needed: nat, len: nat) {
    && before <= after
    && forall i :: |before| <= i < |after| ==>
                     after[i].ec == Ok && after[i].needed == needed <= |after[i].data| <= len == after[i].len
  }

  lemma TakenFurther(input: seq<byte>, k: nat, n: nat)
    requires k + n <= |input|
    ensures input[..k] + input[k..][..n] == input[..k + n]
  {
  }

  /** The log grew by so many calls, all alike. */
  ghost predicate Refused(before: seq<Completion>, after: seq<Completion>, calls: nat, c: Completion) {
    before <= after && |after| == |before| + calls && forall i :: |before| <= i < |after| ==> after[i] == c
  }

  function Min(a: nat, b: nat): nat {
    if a < b then a else b
  }

  class Connection {
    var reading: bool
    var buf: array<byte>
    var len: nat
    var bytesNeeded: nat
    var readHandler: Handler
    var cursor: nat
    var ec: Code
    var indefReadSize: nat
    var indefReadLen: nat
    var indefReadTotal: nat
    var indefReadBuf: array<byte>
    ghost var log: seq<Completion>

    ghost predicate Valid()
      reads this
    {
      && (reading ==> cursor < bytesNeeded <= len <= buf.Length)
      && (reading <==> !readHandler.NoHandler?)
      && (readHandler.HandleIndef? ==> Indefinite())
      && AllWithinBounds(log)
    }

    /** Armed by the handler that arms again. */
    ghost predicate Indefinite()
      reads this
    {
      && reading && readHandler.HandleIndef? && 0 < indefReadSize <= indefReadLen <= indefReadBuf.Length
      && buf == indefReadBuf && len == indefReadLen && bytesNeeded == indefReadSize
    }

    /** Everything accepted so far: the completed reads and what the armed one holds. */
    ghost function Received(): seq<byte>
      requires Valid()
      reads this, buf
    {
      Delivered(log) + if reading then buf[..cursor] else []
    }

    constructor ()
      ensures Valid() && !reading && log == [] && Received() == []
    {
      reading, readHandler, ec := false, NoHandler, Ok;
      len, bytesNeeded, cursor, indefReadSize, indefReadLen, indefReadTotal := 0, 0, 0, 0, 0, 0;
      buf, indefReadBuf := new byte[0], new byte[0];
      log := [];
    }

    /** The call every read goes through: refused with a code, satisfied at once, or armed. */
    method Arm(numBytes: nat, target: array<byte>, n: nat, handler: Handler) returns (armed: bool, e: Code)
      requires n <= target.Length && !handler.NoHandler? && AllWithinBounds(log)
      requires handler.HandleIndef? ==> numBytes == indefReadSize && target == indefReadBuf && n == indefReadLen
      modifies `buf, `len, `bytesNeeded, `readHandler, `cursor, `reading
      ensures armed <==> Accepted(old(reading), numBytes, n)
      ensures armed ==>
                && Valid() && reading && cursor == 0 && buf == target && len == n && bytesNeeded == numBytes
                && readHandler == handler
      ensures !armed ==> unchanged(this) && e == RefusalCode(reading, numBytes, n)
      ensures !armed ==>
                && (e == InvalidNumBytes <==> numBytes > n)
                && (e == DoubleRead <==> numBytes <= n && reading)
                && (e == Ok <==> numBytes == 0 && !reading)
    {
      if numBytes > n {
        return false, InvalidNumBytes;
      }
      if reading {
        return false, DoubleRead;
      }
      if numBytes == 0 || n == 0 {
        return false, Ok;
      }
      buf, len, bytesNeeded, readHandler, cursor, reading := target, n, numBytes, handler, 0, true;
      return true, Ok;
    }

    /** A single read: the handler of a refused one is called at once, with nothing. */
    method AsyncReadAtLeast(numBytes: nat, target: array<byte>, n: nat)
      requires Valid() && n <= target.Length
      modifies this
      ensures Valid()
      ensures Accepted(old(reading), numBytes, n) ==>
                && reading && cursor == 0 && buf == target && len == n && bytesNeeded == numBytes
                && readHandler == HandleOp && log == old(log)
      ensures !Accepted(old(reading), numBytes, n) ==>
                && reading == old(reading) && cursor == old(cursor) && buf == old(buf)
                && ec == RefusalCode(reading, numBytes, n)
                && log == old(log) + [Completion(ec, [], numBytes, n)]
    {
      var armed, e := Arm(numBytes, target, n, HandleOp);
      if !armed {
        ec := e;
        log := log + [Completion(e, [], numBytes, n)];
      }
    }

    /**
      A read that goes on: each completion arms the next.  A refused ask calls the handler,
      which asks again; the call is followed for so many asks, and settled says whether a
      read was armed within them.
     */
    method AsyncReadIndef(numBytes: nat, target: array<byte>, n: nat, asks: nat) returns (settled: bool)
      requires Valid() && n <= target.Length
      modifies this
      ensures settled == AfterAsks(old(reading), numBytes, n, asks).Settled?
      ensures settled ==>
                && Valid() && Indefinite() && cursor == 0 && buf == target && len == n && bytesNeeded == numBytes
                && log == old(log)
      ensures !settled ==>
                && reading == old(reading) && cursor == old(cursor) && buf == old(buf) && readHandler == old(readHandler)
                && Refused(old(log), log, AfterAsks(reading, numBytes, n, asks).calls,
                           Completion(RefusalCode(reading, numBytes, n), [], numBytes, n))
    {
      indefReadSize, indefReadBuf, indefReadLen := numBytes, target, n;
      settled := IndefRead(asks);
    }

    /** Ask, and let the handler of a refused ask ask again. */
    method IndefRead(asks: nat) returns (settled: bool)
      requires indefReadLen <= indefReadBuf.Length && AllWithinBounds(log)
      modifies `buf, `len, `bytesNeeded, `readHandler, `cursor, `reading, `ec, `log, `indefReadTotal
      ensures AllWithinBounds(log) && indefReadTotal == old(indefReadTotal)
      ensures settled == AfterAsks(old(reading), indefReadSize, indefReadLen, asks).Settled?
      ensures settled ==>
                && Valid() && Indefinite() && cursor == 0 && buf == indefReadBuf && len == indefReadLen
                && bytesNeeded == indefReadSize && log == old(log) && ec == old(ec)
      ensures !settled ==>
                && reading == old(reading) && cursor == old(cursor) && buf == old(buf) && readHandler == old(readHandler)
                && Refused(old(log), log, AfterAsks(reading, indefReadSize, indefReadLen, asks).calls,
                           Completion(RefusalCode(reading, indefReadSize, indefReadLen), [], indefReadSize, indefReadLen))
      decreases asks
    {
      AsksAllAlike(reading, indefReadSize, indefReadLen, asks);
      if asks == 0 {
        return false;
      }
      AsksAllAlike(reading, indefReadSize, indefReadLen, asks - 1);
      var armed, e := Arm(indefReadSize, indefReadBuf, indefReadLen, HandleIndef);
      settled := true;
      if !armed {
        CallIndef(e, []);
        settled := IndefRead(asks - 1);
      }
    }

    /** What the indefinite handler does before it asks again. */
    method CallIndef(e: Code, data: seq<byte>)
      modifies `ec, `log, `indefReadTotal
      ensures ec == e && log == old(log) + [Completion(e, data, indefReadSize, indefReadLen)]
      ensures indefReadTotal == old(indefReadTotal) + |data|
    {
      ec := e;
      indefReadTotal := indefReadTotal + |data|;
      log := log + [Completion(e, data, indefReadSize, indefReadLen)];
    }

    /** The end of a read: disarm, forget the handler, call it; the indefinite one arms the next read. */
    method CompleteRead(e: Code)
      requires reading && cursor <= len <= buf.Length && !readHandler.NoHandler?
      requires e == Ok ==> bytesNeeded <= cursor
      requires (readHandler.HandleIndef? ==> Indefinite()) && AllWithinBounds(log)
      modifies this
      ensures Valid() && ec == e && buf == old(buf)
      ensures log == old(log) + [Completion(e, old(buf[..cursor]), old(bytesNeeded), old(len))]
      ensures Received() == old(Delivered(log)) + old(buf[..cursor])
      ensures old(readHandler).HandleOp? ==> !reading && indefReadTotal == old(indefReadTotal)
      ensures old(readHandler).HandleIndef? ==>
                Indefinite() && cursor == 0 && indefReadBuf == old(indefReadBuf)
                && bytesNeeded == old(bytesNeeded) && len == old(len) && indefReadTotal == old(indefReadTotal + cursor)
    {
      hide Delivered;
      reading := false;
      var handler := readHandler;
      readHandler := NoHandler;
      OneMore(log, Completion(e, buf[..cursor], bytesNeeded, len));
      if handler.HandleIndef? {
        CallIndef(e, buf[..cursor]);
        AsksAllAlike(reading, indefReadSize, indefReadLen, 1);
        var settled := IndefRead(1);
      } else {
        ec := e;
        log := log + [Completion(e, buf[..cursor], bytesNeeded, len)];
      }
    }

    /** A transport error completes an armed read with what it has. */
    method FatalError()
      requires Valid()
      modifies this
      ensures Valid()
      ensures old(reading) ==> log == old(log) + [Completion(PassThrough, old(buf[..cursor]), old(bytesNeeded), old(len))]
      ensures !old(reading) ==> unchanged(this)
      ensures Received() == old(Received())
    {
      if reading {
        CompleteRead(PassThrough);
      }
    }

    /** Feed some input: as much as still fits, nothing when no read is armed. */
    method ReadSomeImpl(input: seq<byte>) returns (n: nat)
      requires Valid()
      modifies this, buf
      ensures Valid()
      ensures n == if old(reading) then Min(|input|, old(len - cursor)) else 0
      ensures Received() == old(Received()) + input[..n]
      ensures Grown(old(log), log, old(bytesNeeded), old(len))
      ensures buf == old(buf) && (old(Indefinite()) ==> Indefinite())
      ensures reading ==> bytesNeeded == old(bytesNeeded) && len == old(len)
      ensures old(reading && readHandler.HandleOp?) ==>
                (reading <==> old(cursor) + |input| < old(bytesNeeded)) && (reading ==> n == |input| && readHandler.HandleOp?)
      ensures !old(reading) ==> !reading && log == old(log)
    {
      hide Delivered, WithinBounds;
      if !reading {
        return 0;
      }
      n := Min(|input|, len - cursor);
      CopyIn(input[..n]);
      cursor := cursor + n;
      if cursor >= bytesNeeded {
        CompleteRead(Ok);
      }
    }

    method CopyIn(data: seq<byte>)
      requires cursor + |data| <= buf.Length
      modifies buf
      ensures buf[..cursor + |data|] == old(buf[..cursor]) + data
    {
      forall i | 0 <= i < |data| {
        buf[cursor + i] := data[i];
      }
    }

    /** Feed input until it is used up or nothing more is taken. */
    method ReadAll(input: seq<byte>) returns (total: nat)
      requires Valid()
      modifies this, buf
      ensures Valid() && total <= |input|
      ensures Received() == old(Received()) + input[..total]
      ensures Grown(old(log), log, old(bytesNeeded), old(len))
      ensures buf == old(buf)
      ensures old(Indefinite()) ==> total == |input| && Indefinite()
      ensures reading ==> bytesNeeded == old(bytesNeeded) && len == old(len)
      ensures old(reading && readHandler.HandleOp?) ==> total == Min(|input|, old(len - cursor))
      ensures !old(reading) ==> total == 0
    {
      hide Delivered, WithinBounds;
      total := 0;
      var more := true;
      while more
        invariant Valid() && total <= |input|
        invariant Received() == old(Received()) + input[..total]
        invariant Grown(old(log), log, old(bytesNeeded), old(len))
        invariant buf == old(buf)
        invariant old(Indefinite()) ==> Indefinite() && (!more ==> total == |input|)
        invariant reading ==> bytesNeeded == old(bytesNeeded) && len == old(len)
        invariant old(reading && readHandler.HandleOp?) ==>
                    (total == 0 && more && reading && readHandler.HandleOp? && cursor == old(cursor) && len == old(len))
                    || (total == Min(|input|, old(len - cursor)) && (more ==> !reading))
        invariant !old(reading) ==> total == 0 && !reading
        decreases |input| - total, more
      {
        var tempRead := ReadSomeImpl(input[total..]);
        TakenFurther(input, total, tempRead);
        total := total + tempRead;
        more := tempRead != 0 && total < |input|;
      }
    }

    /** However the input is cut into calls, the indefinite read takes all of it, in order. */
    method FeedAll(inputs: seq<seq<byte>>)
      requires Valid() && Indefinite()
      modifies this, buf
      ensures Valid() && Indefinite()
      ensures Received() == old(Received()) + Concat(inputs)
      ensures Grown(old(log), log, old(bytesNeeded), old(len))
    {
      var i := 0;
      assert inputs[..0] == [];
      while i < |inputs|
        invariant i <= |inputs| && Valid() && Indefinite() && buf == old(buf)
        invariant bytesNeeded == old(bytesNeeded) && len == old(len)
        invariant Received() == old(Received()) + Concat(inputs[..i])
        invariant Grown(old(log), log, old(bytesNeeded), old(len))
      {
        var n := ReadAll(inputs[i]);
        assert inputs[..i + 1][..i] == inputs[..i];
        i := i + 1;
      }
      assert inputs[..i] == inputs;
    }
  }
}
