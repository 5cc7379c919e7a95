/** Scatter/gather vectors over one byte memory, and the transport's send and receive loops. */
module IoVectors {
  import opened Bytes

  /** A region of memory. */
  datatype IoVec = IoVec(base: nat, len: nat)

  function Region(base: nat, len: nat): seq<nat> {
    seq(len, i requires 0 <= i => base + i)
  }

  /** The addresses a vector runs through, in order. */
  function Addrs(v: seq<IoVec>): seq<nat> {
    if v == [] then [] else Region(v[0].base, v[0].len) + Addrs(v[1..])
  }

  lemma {:induction false} AddrsConcat(a: seq<IoVec>, b: seq<IoVec>)
    ensures Addrs(a + b) == Addrs(a) + Addrs(b)
  {
    if a == [] {
      assert a + b == b;
    } else {
      assert (a + b)[1..] == a[1..] + b;
      AddrsConcat(a[1..], b);
    }
  }

  predicate InMemory(size: nat, addrs: seq<nat>) {
    forall i :: 0 <= i < |addrs| ==> addrs[i] < size
  }

  predicate Disjoint(addrs: seq<nat>) {
    forall i, j :: 0 <= i < j < |addrs| ==> addrs[i] != addrs[j]
  }

  /** The bytes at the given addresses, in order. */
  function Gather(mem: seq<byte>, addrs: seq<nat>): (data: seq<byte>)
    requires InMemory(|mem|, addrs)
    ensures |data| == |addrs|
  {
    seq(|addrs|, i requires 0 <= i < |addrs| => mem[addrs[i]])
  }

  /**
    Trim a vector by the bytes already moved: whole entries are skipped and the first one
    left over is shortened in place.
   */
  method RecalcIovec(iov: array<IoVec>, first: nat, count: nat, moved: nat) returns (first': nat, count': nat)
    requires first + count <= iov.Length
    modifies iov
    ensures moved < |Addrs(old(iov[first..first + count]))| ==>
              && first <= first' && first' + count' == first + count
              && Addrs(iov[first'..first' + count']) == Addrs(old(iov[first..first + count]))[moved..]
    ensures moved >= |Addrs(old(iov[first..first + count]))| ==> count' == 0 && iov[..] == old(iov[..])
    ensures iov[..first] == old(iov[..first]) && iov[first + count..] == old(iov[first + count..])
  {
    hide Addrs;
    NoAddrs();
    ghost var v := iov[first..first + count];
    var left: nat := moved;
    var n := 0;
    first' := first;
    while n < count
      invariant 0 <= n <= count && iov[..] == old(iov[..])
      invariant left + |Addrs(v[..n])| == moved
      invariant first' == first
    {
      var entry := iov[first + n];
      assert v[..n + 1] == v[..n] + [v[n]];
      AddrsConcat(v[..n], [v[n]]);
      OneEntry(v[n]);
      if entry.len > left {
        TrimSkipped(v, n, left);
        ShortenEntry(iov, first + n, first + count, left);
        first' := first + n;
        break;
      } else {
        left := left - entry.len;
      }
      n := n + 1;
    }
    assert v[..count] == v;
    count' := count - n;
  }

  lemma NoAddrs()
    ensures Addrs([]) == []
  {
  }

  lemma OneEntry(entry: IoVec)
    ensures |Addrs([entry])| == entry.len
  {
  }

  /** The first bytes of an entry dropped in place. */
  method ShortenEntry(iov: array<IoVec>, at: nat, end: nat, left: nat)
    requires at < end <= iov.Length && left < iov[at].len
    modifies iov
    ensures iov[..] == old(iov[..])[at := IoVec(old(iov[at]).base + left, old(iov[at]).len - left)]
    ensures iov[at..end] == [IoVec(old(iov[at]).base + left, old(iov[at]).len - left)] + old(iov[at + 1..end])
    ensures iov[..at] == old(iov[..at]) && iov[end..] == old(iov[end..])
  {
    iov[at] := IoVec(iov[at].base + left, iov[at].len - left);
  }

  /** Skipping n entries and shortening the next drops exactly the bytes moved. */
  lemma TrimSkipped(v: seq<IoVec>, n: nat, left: nat)
    requires n < |v| && left < v[n].len
    ensures |Addrs(v[..n])| + left < |Addrs(v)|
    ensures Addrs([IoVec(v[n].base + left, v[n].len - left)] + v[n + 1..]) == Addrs(v)[|Addrs(v[..n])| + left..]
  {
    assert v == v[..n] + v[n..];
    AddrsConcat(v[..n], v[n..]);
    assert v[n..][1..] == v[n + 1..];
    var trimmed := [IoVec(v[n].base + left, v[n].len - left)] + v[n + 1..];
    assert trimmed[1..] == v[n + 1..];
    assert Region(v[n].base + left, v[n].len - left) == Region(v[n].base, v[n].len)[left..];
  }

  function Min(a: nat, b: nat): nat {
    if a < b then a else b
  }

  /** The loops' time budget in milliseconds, as the source converts it. */
  function Budget(timeout: int): (ms: nat)
    ensures 0 <= timeout < 0x8000_0000 ==> ms == 1000 * timeout
  {
    ToU64(timeout * 1000)
  }

  lemma GatherSlice(mem: seq<byte>, addrs: seq<nat>, k: nat)
    requires k <= |addrs| && InMemory(|mem|, addrs)
    ensures InMemory(|mem|, addrs[k..]) && InMemory(|mem|, addrs[..k])
    ensures Gather(mem, addrs) == Gather(mem, addrs[..k]) + Gather(mem, addrs[k..])
  {
  }

  lemma GatherMore(mem: seq<byte>, addrs: seq<nat>, k: nat, more: nat)
    requires k + more <= |addrs| && InMemory(|mem|, addrs)
    ensures Gather(mem, addrs[..k + more]) == Gather(mem, addrs[..k]) + Gather(mem, addrs[k..][..more])
  {
    assert addrs[..k + more] == addrs[..k] + addrs[k..][..more];
  }

  // ---------- sending ----------

  /** What one pass of the send loop meets; Writes(n) is a write that moves n bytes or all there are. */
  datatype SendEvent =
    | SelectFails(code: int)
    | SelectTimesOut
    | NotWritable
    | WriteFails(code: int, retry: bool)
    | Writes(n: nat)

  predicate SendEventOk(e: SendEvent) {
    (e.SelectFails? || e.WriteFails?) ==> e.code < 0
  }

  datatype Outcome = Returned(code: int) | StillRunning

  /** What ends the send loop at once: select failing, or a write failing for a reason not worth a retry. */
  predicate SendStops(e: SendEvent) {
    e.SelectFails? || (e.WriteFails? && !e.retry)
  }

  /** What a pass spends of the time budget. */
  function Cost(e: SendEvent): nat {
    match e
    case SelectTimesOut => 1
    case NotWritable => 10
    case SelectFails(_) => 0
    case WriteFails(_, _) => 0
    case Writes(_) => 0
  }

  function Spent(script: seq<SendEvent>): nat {
    if script == [] then 0 else Spent(script[..|script| - 1]) + Cost(script[|script| - 1])
  }

  /** How many bytes the writes of a script would move. */
  function Written(script: seq<SendEvent>): nat {
    if script == [] then 0
    else
      var e := script[|script| - 1];
      Written(script[..|script| - 1]) + if e.Writes? then e.n else 0
  }

  /** Why the send loop is where it is after the first `used` events. */
  ghost predicate SendEnds(script: seq<SendEvent>, used: nat, timeout: int, total: nat, sent: nat, r: Outcome) {
    && used <= |script|
    // the events' writes went out, as far as there was anything left
    && sent == Min(total, Written(script[..used]))
    // it went on while it could
    && (forall i :: 0 <= i < used - 1 ==> !SendStops(script[i]))
    && (used > 0 ==> Written(script[..used - 1]) < total && Spent(script[..used - 1]) < Budget(timeout))
    // and has a reason to have ended, or has met all there is
    && (r.Returned? ==> r.code <= 0 && (r.code == 0 <==> sent == total))
    && (r.Returned? && r.code < 0 ==>
          || (used > 0 && SendStops(script[used - 1]) && r.code == script[used - 1].code)
          || (r.code == -1 && Spent(script[..used]) >= Budget(timeout)))
    && (r.StillRunning? ==>
          used == |script| && Spent(script) < Budget(timeout) && (forall i :: 0 <= i < used ==> !SendStops(script[i])))
    && (r.StillRunning? ==> sent < total)
  }

  lemma {:induction false} PrefixSums(script: seq<SendEvent>, k: nat)
    requires k <= |script|
    ensures Spent(script[..k]) <= Spent(script) && Written(script[..k]) <= Written(script)
  {
    if k < |script| {
      var front := script[..|script| - 1];
      assert front[..k] == script[..k];
      PrefixSums(front, k);
    } else {
      assert script[..k] == script;
    }
  }

  /** Nothing in the script stops the loop, it fits the budget, and its writes are enough. */
  ghost predicate SendCovers(script: seq<SendEvent>, timeout: int, total: nat) {
    (forall e :: e in script ==> !SendStops(e)) && Spent(script) < Budget(timeout) && Written(script) >= total
  }

  /** A script whose writes cover the vector, with nothing that stops the loop and within the budget, has everything sent. */
  lemma CoveringScriptSendsAll(script: seq<SendEvent>, used: nat, timeout: int, total: nat, sent: nat, r: Outcome)
    requires SendEnds(script, used, timeout, total, sent, r)
    requires SendCovers(script, timeout, total)
    ensures r == Returned(0) && sent == total
  {
    PrefixSums(script, used);
    if used == |script| {
      assert script[..used] == script;
    }
  }

  lemma OneMoreEvent(script: seq<SendEvent>, k: nat)
    requires k < |script|
    ensures Spent(script[..k + 1]) == Spent(script[..k]) + Cost(script[k])
    ensures Written(script[..k + 1]) == Written(script[..k]) + if script[k].Writes? then script[k].n else 0
  {
    assert script[..k + 1][..k] == script[..k];
  }

  /**
    The send loop over everything it may meet.  The script may end while the loop is still
    trying: some passes spend none of the time budget, so the loop need not end by itself.
    The wire always carries a prefix of the vector, and the loop reports 0 exactly when it
    carries all of it; it gives up only for a failure it met or because the budget is spent.
   */
  method DoSend(mem: array<byte>, iov: array<IoVec>, count: nat, total: nat, timeout: int, script: seq<SendEvent>)
    returns (r: Outcome, wire: seq<byte>, used: nat)
    requires count <= iov.Length && InMemory(mem.Length, Addrs(iov[..count])) && total == |Addrs(iov[..count])|
    requires forall e :: e in script ==> SendEventOk(e)
    modifies iov
    ensures wire <= Gather(mem[..], Addrs(old(iov[..count])))
    ensures r.Returned? ==> r.code <= 0 && (r.code == 0 <==> wire == Gather(mem[..], Addrs(old(iov[..count]))))
    ensures SendEnds(script, used, timeout, total, |wire|, r)
    ensures SendCovers(script, timeout, total) ==> r == Returned(0)
  {
    hide Addrs, Gather, Budget, Spent, Written, Cost;
    ghost var addrs := Addrs(iov[..count]);
    r, wire, used := SendLoop(mem, iov, count, total, timeout, script);
    if SendCovers(script, timeout, total) {
      CoveringScriptSendsAll(script, used, timeout, total, |wire|, r);
    }
    GatherSlice(mem[..], addrs, |wire|);
    assert addrs[..|addrs|] == addrs;
  }

  method SendLoop(mem: array<byte>, iov: array<IoVec>, count: nat, total: nat, timeout: int, script: seq<SendEvent>)
    returns (r: Outcome, wire: seq<byte>, used: nat)
    requires count <= iov.Length && InMemory(mem.Length, Addrs(iov[..count])) && total == |Addrs(iov[..count])|
    requires forall e :: e in script ==> SendEventOk(e)
    modifies iov
    ensures |wire| <= total && wire == Gather(mem[..], Addrs(old(iov[..count]))[..|wire|])
    ensures SendEnds(script, used, timeout, total, |wire|, r)
  {
    hide Addrs, Gather, Budget, Spent, Written, Cost;
    ghost var addrs := Addrs(iov[..count]);
    var remain := total;
    var budget: int := Budget(timeout);
    var at: nat, left: nat := 0, count;
    wire, used := [], 0;
    assert addrs[0..] == addrs;
    NoEvents(script);
    while budget > 0 && remain > 0
      invariant used <= |script| && budget >= 0
      invariant |wire| + remain == total && wire == Gather(mem[..], addrs[..|wire|])
      invariant at + left <= iov.Length
      invariant remain > 0 ==> Addrs(iov[at..at + left]) == addrs[|wire|..]
      invariant budget == Budget(timeout) - Spent(script[..used])
      invariant |wire| == Min(total, Written(script[..used]))
      invariant forall i :: 0 <= i < used ==> !SendStops(script[i])
      invariant used > 0 ==> Written(script[..used - 1]) < total && Spent(script[..used - 1]) < Budget(timeout)
      decreases |script| - used
    {
      if used == |script| {
        assert script[..used] == script;
        return StillRunning, wire, used;
      }
      var event := script[used];
      assert event in script;
      OneMoreEvent(script, used);
      CostIs(event);
      used := used + 1;
      match event {
        case SelectFails(code) =>
          return Returned(code), wire, used;
        case SelectTimesOut =>
          budget := budget - 1;
        case NotWritable =>
          if budget < 10 {
            return Returned(-1), wire, used;
          }
          budget := budget - 10;
        case WriteFails(code, retry) =>
          if !retry {
            return Returned(code), wire, used;
          }
        case Writes(n) =>
          var sent := Min(n, remain);
          at, left, wire := WriteAndTrim(mem, iov, at, left, addrs, wire, sent, remain);
          remain := remain - sent;
      }
    }
    r := Returned(if budget == 0 && remain > 0 then -1 else 0);
  }

  /** One writev, and the vector trimmed by it if there is more to come. */
  method WriteAndTrim(mem: array<byte>, iov: array<IoVec>, at: nat, left: nat, ghost addrs: seq<nat>, wire: seq<byte>,
                      sent: nat, remain: nat)
    returns (at': nat, left': nat, wire': seq<byte>)
    requires InMemory(mem.Length, addrs) && |addrs| == |wire| + remain && sent <= remain && remain > 0
    requires at + left <= iov.Length && Addrs(iov[at..at + left]) == addrs[|wire|..]
    requires wire == Gather(mem[..], addrs[..|wire|])
    modifies iov
    ensures |wire'| == |wire| + sent && wire' == Gather(mem[..], addrs[..|wire'|])
    ensures at' + left' <= iov.Length
    ensures sent < remain ==> Addrs(iov[at'..at' + left']) == addrs[|wire'|..]
  {
    hide Addrs, Gather;
    at', left' := at, left;
    GatherMore(mem[..], addrs, |wire|, sent);
    wire' := wire + Gather(mem[..], Addrs(iov[at..at + left])[..sent]);
    if 0 < sent < remain {
      at', left' := RecalcIovec(iov, at, left, sent);
      assert addrs[|wire|..][sent..] == addrs[|wire| + sent..];
    }
  }

  lemma NoEvents(script: seq<SendEvent>)
    ensures Spent(script[..0]) == 0 && Written(script[..0]) == 0
  {
  }

  lemma CostIs(e: SendEvent)
    ensures Cost(e) == match e case SelectTimesOut => 1 case NotWritable => 10 case _ => 0
  {
  }

  // ---------- receiving ----------

  /** What one pass of the receive loop meets; Reads(n) is a read that moves n bytes or all there is room or data for. */
  datatype RecvEvent =
    | SelectFails(code: int)
    | SelectTimesOut
    | NotReadable
    | ReadFails(code: int, retry: bool)
    | ReadsNothing
    | Reads(n: nat)

  predicate RecvEventOk(e: RecvEvent) {
    (e.SelectFails? || e.ReadFails?) ==> e.code < 0
  }

  /** What ends the receive loop at once, with data still to come: a failure, or the other side closing. */
  predicate RecvStops(e: RecvEvent) {
    e.SelectFails? || (e.ReadFails? && !e.retry) || e.ReadsNothing? || (e.Reads? && e.n == 0)
  }

  function StopCode(e: RecvEvent): int {
    if e.SelectFails? || e.ReadFails? then e.code else -1
  }

  /** How many bytes the reads of the first passes would move. */
  function Readable(env: nat -> RecvEvent, passes: nat): nat {
    if passes == 0 then 0
    else
      var e := env(passes - 1);
      Readable(env, passes - 1) + if e.Reads? then e.n else 0
  }

  lemma {:induction false} ReadableGrows(env: nat -> RecvEvent, i: nat, k: nat)
    requires i <= k
    ensures Readable(env, i) <= Readable(env, k)
  {
    if i < k {
      ReadableGrows(env, i, k - 1);
    }
  }

  /** Why the receive loop returned after so many passes. */
  ghost predicate RecvEnds(env: nat -> RecvEvent, passes: nat, timeout: int, total: nat, available: nat, consumed: nat, code: int) {
    && passes <= Budget(timeout)
    && consumed == Min(total, Min(available, Readable(env, passes)))
    // it went on while it could
    && (forall i :: 0 <= i < passes - 1 ==> !RecvStops(env(i)))
    && (passes > 0 ==> Min(available, Readable(env, passes - 1)) < total)
    // and has a reason to have ended
    && code <= 0 && (code == 0 <==> consumed == total)
    && (code < 0 ==>
          || (passes > 0 && RecvStops(env(passes - 1)) && code == StopCode(env(passes - 1)))
          || (passes > 0 && env(passes - 1).Reads? && consumed == available && code == -1)
          || (passes == Budget(timeout) && code == -1))
  }

  /** The first m passes fit the budget, have nothing that stops the loop, and read enough. */
  ghost predicate RecvCovers(env: nat -> RecvEvent, m: nat, timeout: int, total: nat) {
    m <= Budget(timeout) && (forall i :: 0 <= i < m ==> !RecvStops(env(i))) && Readable(env, m) >= total
  }

  /** Reads that cover the vector, with the data there, nothing that stops the loop and within the budget, fill it. */
  lemma CoveringReadsFillAll(env: nat -> RecvEvent, m: nat, passes: nat, timeout: int, total: nat, available: nat, consumed: nat,
                             code: int)
    requires RecvEnds(env, passes, timeout, total, available, consumed, code)
    requires RecvCovers(env, m, timeout, total) && available >= total
    ensures code == 0 && consumed == total
  {
    if passes > m {
      ReadableGrows(env, m, passes - 1);
    } else {
      ReadableGrows(env, passes, m);
    }
    if m <= passes {
      ReadableGrows(env, m, passes);
    }
  }

  /** Bytes scattered over the addresses that follow the first `from` of a vector. */
  method Scatter(mem: array<byte>, rest: seq<nat>, data: seq<byte>, ghost addrs: seq<nat>, ghost from: nat)
    requires InMemory(mem.Length, addrs) && Disjoint(addrs)
    requires from <= |addrs| && rest == addrs[from..] && |data| <= |rest|
    modifies mem
    ensures forall i :: from <= i < from + |data| ==> mem[addrs[i]] == data[i - from]
    ensures forall i :: 0 <= i < from ==> mem[addrs[i]] == old(mem[addrs[i]])
    ensures forall a :: 0 <= a < mem.Length && a !in addrs[..from + |data|] ==> mem[a] == old(mem[a])
  {
    var i := 0;
    while i < |data|
      invariant 0 <= i <= |data|
      invariant forall j :: from <= j < from + i ==> mem[addrs[j]] == data[j - from]
      invariant forall j :: 0 <= j < from ==> mem[addrs[j]] == old(mem[addrs[j]])
      invariant forall a :: 0 <= a < mem.Length && a !in addrs[..from + i] ==> mem[a] == old(mem[a])
    {
      assert addrs[..from + i + 1] == addrs[..from + i] + [addrs[from + i]];
      mem[rest[i]] := data[i];
      i := i + 1;
    }
  }

  /** One readv: the next bytes of the stream land in what is left of the vector. */
  method ReadChunk(mem: array<byte>, iov: array<IoVec>, at: nat, left: nat, stream: seq<byte>,
                   ghost addrs: seq<nat>, from: nat, got: nat)
    requires InMemory(mem.Length, addrs) && Disjoint(addrs) && from + got <= |addrs| && from + got <= |stream|
    requires at + left <= iov.Length && Addrs(iov[at..at + left]) == addrs[from..]
    requires forall i :: 0 <= i < from ==> mem[addrs[i]] == stream[i]
    modifies mem
    ensures forall i :: 0 <= i < from + got ==> mem[addrs[i]] == stream[i]
    ensures forall a :: 0 <= a < mem.Length && a !in addrs[..from + got] ==> mem[a] == old(mem[a])
  {
    Scatter(mem, Addrs(iov[at..at + left]), stream[from..from + got], addrs, from);
  }

  /** One readv, and the vector trimmed by it if there is more to come. */
  method ReadAndTrim(mem: array<byte>, iov: array<IoVec>, at: nat, left: nat, stream: seq<byte>,
                     ghost addrs: seq<nat>, from: nat, got: nat, remain: nat)
    returns (at': nat, left': nat)
    requires |addrs| == from + remain
    requires InMemory(mem.Length, addrs) && Disjoint(addrs) && from + got <= |addrs| && from + got <= |stream|
    requires at + left <= iov.Length && Addrs(iov[at..at + left]) == addrs[from..]
    requires forall i :: 0 <= i < from ==> mem[addrs[i]] == stream[i]
    modifies mem, iov
    ensures forall i :: 0 <= i < from + got ==> mem[addrs[i]] == stream[i]
    ensures forall a :: 0 <= a < mem.Length && a !in addrs[..from + got] ==> mem[a] == old(mem[a])
    ensures at' + left' <= iov.Length
    ensures from + got < |addrs| ==> Addrs(iov[at'..at' + left']) == addrs[from + got..]
  {
    hide Addrs, Disjoint, InMemory;
    at', left' := at, left;
    ReadChunk(mem, iov, at, left, stream, addrs, from, got);
    if got < remain {
      at', left' := RecalcIovec(iov, at, left, got);
      assert addrs[from..][got..] == addrs[from + got..];
    }
  }

  lemma PrefixGrows(addrs: seq<nat>, k: nat, more: nat)
    requires k + more <= |addrs|
    ensures forall a :: a in addrs[..k] ==> a in addrs[..k + more]
  {
    assert addrs[..k] == addrs[..k + more][..k];
  }

  /**
    The receive loop, over any behaviour of select and readv.  It ends within its time
    budget, never reads past the vector, and reports 0 exactly when the vector's regions hold
    the next bytes of the stream.
   */
  method DoRecv(mem: array<byte>, iov: array<IoVec>, count: nat, total: nat, timeout: int,
                stream: seq<byte>, env: nat -> RecvEvent)
    returns (code: int, consumed: nat, passes: nat)
    requires count <= iov.Length && InMemory(mem.Length, Addrs(iov[..count])) && Disjoint(Addrs(iov[..count]))
    requires total == |Addrs(iov[..count])|
    requires forall k :: RecvEventOk(env(k))
    modifies mem, iov
    ensures consumed <= total && consumed <= |stream| && code <= 0 && (code == 0 <==> consumed == total)
    ensures RecvEnds(env, passes, timeout, total, |stream|, consumed, code)
    ensures |stream| >= total ==> forall m: nat :: RecvCovers(env, m, timeout, total) ==> code == 0
    ensures var addrs := Addrs(old(iov[..count]));
            && (forall i :: 0 <= i < consumed ==> mem[addrs[i]] == stream[i])
            && (forall a :: 0 <= a < mem.Length && a !in addrs[..consumed] ==> mem[a] == old(mem[a]))
  {
    hide Addrs, Budget, Readable;
    code, consumed, passes := RecvLoop(mem, iov, count, total, timeout, stream, env);
    forall m: nat | |stream| >= total && RecvCovers(env, m, timeout, total) ensures code == 0 {
      CoveringReadsFillAll(env, m, passes, timeout, total, |stream|, consumed, code);
    }
  }

  method RecvLoop(mem: array<byte>, iov: array<IoVec>, count: nat, total: nat, timeout: int,
                  stream: seq<byte>, env: nat -> RecvEvent)
    returns (code: int, consumed: nat, passes: nat)
    requires count <= iov.Length && InMemory(mem.Length, Addrs(iov[..count])) && Disjoint(Addrs(iov[..count]))
    requires total == |Addrs(iov[..count])|
    requires forall k :: RecvEventOk(env(k))
    modifies mem, iov
    ensures consumed <= total && consumed <= |stream|
    ensures RecvEnds(env, passes, timeout, total, |stream|, consumed, code)
    ensures var addrs := Addrs(old(iov[..count]));
            && (forall i :: 0 <= i < consumed ==> mem[addrs[i]] == stream[i])
            && (forall a :: 0 <= a < mem.Length && a !in addrs[..consumed] ==> mem[a] == old(mem[a]))
  {
    hide Addrs, Budget, Readable, Disjoint, RecvStops, StopCode, RecvEnds;
    ghost var addrs := Addrs(iov[..count]);
    var remain := total;
    var budget := Budget(timeout);
    var at: nat, left: nat := 0, count;
    consumed, passes := 0, 0;
    assert addrs[0..] == addrs;
    NoPasses(env);
    while budget > 0 && remain > 0
      invariant passes + budget == Budget(timeout)
      invariant RecvGoesOn(env, passes, timeout, total, |stream|, consumed)
      invariant consumed + remain == total && consumed <= |stream|
      invariant at + left <= iov.Length
      invariant remain > 0 ==> Addrs(iov[at..at + left]) == addrs[consumed..]
      invariant forall i :: 0 <= i < consumed ==> mem[addrs[i]] == stream[i]
      invariant forall a :: 0 <= a < mem.Length && a !in addrs[..consumed] ==> mem[a] == old(mem[a])
      decreases budget
    {
      var event := env(passes);
      OneMorePass(env, passes);
      StopsWhen(event);
      passes := passes + 1;
      if event.SelectFails? {
        RecvStopped(env, passes, timeout, total, |stream|, consumed);
        return event.code, consumed, passes;
      }
      budget := budget - 1;
      match event {
        case SelectFails(_) =>
        case SelectTimesOut =>
        case NotReadable =>
        case ReadFails(c, retry) =>
          if !retry {
            RecvStopped(env, passes, timeout, total, |stream|, consumed);
            return c, consumed, passes;
          }
        case ReadsNothing =>
          RecvStopped(env, passes, timeout, total, |stream|, consumed);
          return -1, consumed, passes;
        case Reads(n) =>
          var got := Min(n, Min(remain, |stream| - consumed));
          if got == 0 {
            RecvClosed(env, passes, timeout, total, |stream|, consumed);
            return -1, consumed, passes;
          }
          PrefixGrows(addrs, consumed, got);
          at, left := ReadAndTrim(mem, iov, at, left, stream, addrs, consumed, got, remain);
          consumed := consumed + got;
          remain := remain - got;
      }
    }
    code := if budget == 0 && remain > 0 then -1 else 0;
    RecvFinished(env, passes, timeout, total, |stream|, consumed, code);
  }

  lemma NoPasses(env: nat -> RecvEvent)
    ensures Readable(env, 0) == 0
  {
  }

  lemma OneMorePass(env: nat -> RecvEvent, passes: nat)
    ensures Readable(env, passes + 1) == Readable(env, passes) + if env(passes).Reads? then env(passes).n else 0
  {
  }

  lemma StopsWhen(e: RecvEvent)
    ensures RecvStops(e) <==> e.SelectFails? || (e.ReadFails? && !e.retry) || e.ReadsNothing? || (e.Reads? && e.n == 0)
    ensures StopCode(e) == if e.SelectFails? || e.ReadFails? then e.code else -1
  {
  }

  /** The state after so many passes of which none ended the loop. */
  ghost predicate RecvGoesOn(env: nat -> RecvEvent, passes: nat, timeout: int, total: nat, available: nat, consumed: nat) {
    && passes <= Budget(timeout)
    && consumed == Min(total, Min(available, Readable(env, passes)))
    && (forall i :: 0 <= i < passes ==> !RecvStops(env(i)))
    && (passes > 0 ==> Min(available, Readable(env, passes - 1)) < total)
  }

  /** The last pass met something that ends the loop. */
  lemma RecvStopped(env: nat -> RecvEvent, passes: nat, timeout: int, total: nat, available: nat, consumed: nat)
    requires passes > 0 && RecvGoesOn(env, passes - 1, timeout, total, available, consumed) && consumed < total
    requires RecvStops(env(passes - 1)) && RecvEventOk(env(passes - 1)) && passes <= Budget(timeout)
    ensures RecvEnds(env, passes, timeout, total, available, consumed, StopCode(env(passes - 1)))
  {
    OneMorePass(env, passes - 1);
  }

  /** The last pass found nothing more to read. */
  lemma RecvClosed(env: nat -> RecvEvent, passes: nat, timeout: int, total: nat, available: nat, consumed: nat)
    requires passes > 0 && RecvGoesOn(env, passes - 1, timeout, total, available, consumed) && consumed < total
    requires env(passes - 1).Reads? && (env(passes - 1).n == 0 || consumed == available) && passes <= Budget(timeout)
    ensures RecvEnds(env, passes, timeout, total, available, consumed, -1)
  {
    OneMorePass(env, passes - 1);
  }

  lemma RecvFinished(env: nat -> RecvEvent, passes: nat, timeout: int, total: nat, available: nat, consumed: nat, code: int)
    requires RecvGoesOn(env, passes, timeout, total, available, consumed)
    requires code == (if consumed < total then -1 else 0) && (consumed < total ==> passes == Budget(timeout))
    ensures RecvEnds(env, passes, timeout, total, available, consumed, code)
  {
  }
}
