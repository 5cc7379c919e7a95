/** The transport's calls in memory: sending a frame, and the two ways of receiving one. */
module RpcCalls {
  import opened Bytes
  import opened IoVectors
  import opened Rpc

  function SizeT(x: int): nat {
    ToU64(x)
  }

  /** A converted int equals a small length only if the int does. */
  lemma SizeTExact(x: int, len: nat)
    requires IsInt(x) && len < 0x8000_0000
    ensures SizeT(x) == len <==> x == len
  {
  }

  function VecLens(v: seq<IoVec>): (lens: seq<nat>)
    ensures |lens| == |v|
  {
    seq(|v|, i requires 0 <= i < |v| => v[i].len)
  }

  /** The parameters a vector points at. */
  function Params(mem: seq<byte>, v: seq<IoVec>): (params: seq<seq<byte>>)
    requires InMemory(|mem|, Addrs(v))
    ensures |params| == |v|
  {
    if v == [] then []
    else
      AddrsSplit(v);
      [Gather(mem, Region(v[0].base, v[0].len))] + Params(mem, v[1..])
  }

  lemma AddrsSplit(v: seq<IoVec>)
    requires v != []
    ensures forall size: nat :: InMemory(size, Addrs(v)) ==>
                                  InMemory(size, Region(v[0].base, v[0].len)) && InMemory(size, Addrs(v[1..]))
  {
    forall size: nat | InMemory(size, Addrs(v))
      ensures InMemory(size, Region(v[0].base, v[0].len)) && InMemory(size, Addrs(v[1..]))
    {
      var front := Region(v[0].base, v[0].len);
      assert forall i :: 0 <= i < |front| ==> Addrs(v)[i] == front[i];
      assert forall i :: 0 <= i < |Addrs(v[1..])| ==> Addrs(v)[|front| + i] == Addrs(v[1..])[i];
    }
  }

  lemma {:induction false} AddrsCount(v: seq<IoVec>)
    ensures |Addrs(v)| == Total(VecLens(v))
  {
    if v != [] {
      assert VecLens(v)[1..] == VecLens(v[1..]);
      AddrsCount(v[1..]);
    }
  }

  lemma {:induction false} ParamsConcat(mem: seq<byte>, v: seq<IoVec>)
    requires InMemory(|mem|, Addrs(v))
    ensures Concat(Params(mem, v)) == Gather(mem, Addrs(v))
    ensures Lens(Params(mem, v)) == VecLens(v)
  {
    if v != [] {
      AddrsSplit(v);
      ParamsConcat(mem, v[1..]);
      var params := Params(mem, v);
      assert Gather(mem, Addrs(v)) == Gather(mem, Region(v[0].base, v[0].len)) + Gather(mem, Addrs(v[1..]));
      forall i | 0 <= i < |v| ensures |params[i]| == v[i].len {
        if i > 0 {
          assert Lens(params[1..])[i - 1] == VecLens(v[1..])[i - 1];
        }
      }
    }
  }

  lemma ParamsAreSplit(mem: seq<byte>, v: seq<IoVec>)
    requires InMemory(|mem|, Addrs(v))
    ensures |Gather(mem, Addrs(v))| == Total(VecLens(v))
    ensures Params(mem, v) == Split(Gather(mem, Addrs(v)), VecLens(v))
  {
    ParamsConcat(mem, v);
    AddrsCount(v);
    SplitConcat(Params(mem, v));
  }

  lemma GatherRegion(mem: seq<byte>, base: nat, len: nat)
    requires base + len <= |mem|
    ensures Gather(mem, Region(base, len)) == mem[base..base + len]
  {
  }

  /** Parameters do not change when memory changes elsewhere only. */
  lemma {:induction false} ParamsUntouched(mem: seq<byte>, mem': seq<byte>, v: seq<IoVec>)
    requires |mem'| == |mem| && InMemory(|mem|, Addrs(v))
    requires forall i :: 0 <= i < |Addrs(v)| ==> mem'[Addrs(v)[i]] == mem[Addrs(v)[i]]
    ensures Params(mem', v) == Params(mem, v)
  {
    if v != [] {
      AddrsSplit(v);
      var front := Region(v[0].base, v[0].len);
      assert forall i :: 0 <= i < |front| ==> Addrs(v)[i] == front[i];
      assert forall i :: 0 <= i < |Addrs(v[1..])| ==> Addrs(v)[|front| + i] == Addrs(v[1..])[i];
      assert Gather(mem', front) == Gather(mem, front);
      ParamsUntouched(mem, mem', v[1..]);
    }
  }

  // ---------- building vectors ----------

  /** The parameter lengths added up, and noted as ints. */
  method SumLens(iov: array<IoVec>, count: nat) returns (sum: nat)
    requires count <= iov.Length
    ensures sum == Total(VecLens(iov[..count]))
  {
    sum := 0;
    var n := 0;
    while n < count
      invariant 0 <= n <= count && sum == Total(VecLens(iov[..n]))
    {
      TotalAppend(VecLens(iov[..n]), iov[n].len);
      assert VecLens(iov[..n + 1]) == VecLens(iov[..n]) + [iov[n].len];
      sum := sum + iov[n].len;
      n := n + 1;
    }
  }

  lemma {:induction false} TotalAppend(lens: seq<nat>, len: nat)
    ensures Total(lens + [len]) == Total(lens) + len
  {
    if lens == [] {
      assert lens + [len] == [len];
    } else {
      assert (lens + [len])[1..] == lens[1..] + [len];
      TotalAppend(lens[1..], len);
    }
  }

  /** The header region put in front of the parameters. */
  method PrependHeader(hdr: IoVec, iov: array<IoVec>, count: nat) returns (v: array<IoVec>)
    requires count <= iov.Length
    ensures fresh(v) && v.Length == count + 1 && v[..] == [hdr] + iov[..count]
  {
    v := new IoVec[count + 1] (_ => hdr);
    var n := 0;
    while n < count
      invariant 0 <= n <= count && v[0] == hdr
      invariant forall i :: 0 <= i < n ==> v[i + 1] == iov[i]
    {
      v[n + 1] := iov[n];
      n := n + 1;
    }
  }

  /** An array of ints laid out in memory. */
  method StoreInts(mem: array<byte>, base: nat, ints: seq<int>)
    requires base + INT_BYTES * |ints| <= mem.Length
    modifies mem
    ensures mem[base..base + INT_BYTES * |ints|] == EncodeInts(ints)
    ensures forall a :: 0 <= a < mem.Length && !(base <= a < base + INT_BYTES * |ints|) ==> mem[a] == old(mem[a])
  {
    var bytes := EncodeInts(ints);
    var i := 0;
    while i < |bytes|
      invariant 0 <= i <= |bytes|
      invariant forall k :: 0 <= k < i ==> mem[base + k] == bytes[k]
      invariant forall a :: 0 <= a < mem.Length && !(base <= a < base + i) ==> mem[a] == old(mem[a])
    {
      mem[base + i] := bytes[i];
      i := i + 1;
    }
  }

  // ---------- sending ----------

  /** The header's region and the parameters' regions lie in memory, and no parameter overlaps the header. */
  predicate SendLayout(size: nat, hdr: nat, v: seq<IoVec>) {
    && hdr + INT_BYTES * (|v| + HEADER_INTS) <= size
    && InMemory(size, Addrs(v))
    && forall i :: 0 <= i < |Addrs(v)| ==> !(hdr <= Addrs(v)[i] < hdr + INT_BYTES * (|v| + HEADER_INTS))
  }

  /**
    One frame sent.  Whatever partial writes occur, the wire carries a prefix of the frame of
    the command and the parameters, and all of it exactly when the call reports 0.
   */
  method Inv(mem: array<byte>, hdr: nat, cmd: int, iov: array<IoVec>, count: nat, timeout: int, script: seq<SendEvent>)
    returns (r: Outcome, wire: seq<byte>, used: nat)
    requires count <= iov.Length && SendLayout(mem.Length, hdr, iov[..count])
    requires Fits(cmd, VecLens(iov[..count]))
    requires forall e :: e in script ==> SendEventOk(e)
    modifies mem
    ensures count + 1 > IOV_MAX ==> r == Returned(-1) && wire == [] && used == 0
    ensures count + 1 <= IOV_MAX ==>
              var frame := Frame(cmd, Params(old(mem[..]), iov[..count]));
              && wire <= frame
              && (r.Returned? ==> r.code <= 0 && (r.code == 0 <==> wire == frame))
              && SendEnds(script, used, timeout, |frame|, |wire|, r)
    ensures count + 1 <= IOV_MAX && SendCovers(script, timeout, FrameLen(VecLens(iov[..count]))) ==> r == Returned(0)
  {
    hide SendEnds, SendCovers, Frame, EncodeInts, Params, Gather, Addrs;
    if count + 1 > IOV_MAX {
      return Returned(-1), [], 0;
    }
    ghost var v := iov[..count];
    var headerBytes := INT_BYTES * (count + HEADER_INTS);
    var sum := SumLens(iov, count);
    sum := sum + headerBytes;
    var headinfo := HeaderInts(cmd, VecLens(iov[..count]));
    StoreInts(mem, hdr, headinfo);
    ParamsUntouched(old(mem[..]), mem[..], v);
    var iovIn := PrependHeader(IoVec(hdr, headerBytes), iov, count);
    VectorOfFrame(mem[..], hdr, cmd, v);
    assert iovIn[..count + 1] == iovIn[..];
    assert iovIn[..] == [IoVec(hdr, headerBytes)] + v;
    r, wire, used := DoSend(mem, iovIn, count + 1, sum, timeout, script);
  }

  /** The vector handed to the send loop runs exactly over the frame. */
  lemma VectorOfFrame(mem: seq<byte>, hdr: nat, cmd: int, v: seq<IoVec>)
    requires SendLayout(|mem|, hdr, v)
    requires mem[hdr..hdr + INT_BYTES * (|v| + HEADER_INTS)] == EncodeInts(HeaderInts(cmd, VecLens(v)))
    ensures var whole := [IoVec(hdr, INT_BYTES * (|v| + HEADER_INTS))] + v;
            && InMemory(|mem|, Addrs(whole))
            && Gather(mem, Addrs(whole)) == Frame(cmd, Params(mem, v))
            && |Addrs(whole)| == FrameLen(VecLens(v))
  {
    var h := INT_BYTES * (|v| + HEADER_INTS);
    var whole := [IoVec(hdr, h)] + v;
    assert whole[1..] == v;
    GatherRegion(mem, hdr, h);
    assert Gather(mem, Addrs(whole)) == Gather(mem, Region(hdr, h)) + Gather(mem, Addrs(v));
    ParamsConcat(mem, v);
    AddrsCount(v);
  }

  // ---------- receiving ----------

  /** The first int against the command, the lengths behind the fixed header against the vector's, one by one. */
  method ParseHeader(cmd: int, iov: array<IoVec>, count: nat, headinfo: seq<int>) returns (code: int)
    requires count <= iov.Length && |headinfo| == count + HEADER_INTS
    requires forall x :: x in headinfo ==> IsInt(x)
    requires FrameLen(VecLens(iov[..count])) < 0x8000_0000
    ensures code == if cmd == headinfo[0] && headinfo[HEADER_INTS..] == VecLens(iov[..count]) then 0 else -1
  {
    if cmd != headinfo[0] {
      return -1;
    }
    LensAreInts(VecLens(iov[..count]));
    var n := 0;
    while n < count
      invariant 0 <= n <= count
      invariant forall i :: 0 <= i < n ==> headinfo[i + HEADER_INTS] == iov[i].len
    {
      assert VecLens(iov[..count])[n] in VecLens(iov[..count]);
      SizeTExact(headinfo[n + HEADER_INTS], iov[n].len);
      if SizeT(headinfo[n + HEADER_INTS]) != iov[n].len {
        assert headinfo[HEADER_INTS..][n] != VecLens(iov[..count])[n];
        return -1;
      }
      n := n + 1;
    }
    assert headinfo[HEADER_INTS..] == VecLens(iov[..count]);
    code := 0;
  }

  /** All lengths against the vector's, one by one. */
  method ParseHeader2(iov: array<IoVec>, count: nat, headinfo: seq<int>) returns (code: int)
    requires count <= iov.Length && |headinfo| == count
    requires forall x :: x in headinfo ==> IsInt(x)
    requires FrameLen(VecLens(iov[..count])) < 0x8000_0000
    ensures code == if headinfo == VecLens(iov[..count]) then 0 else -1
  {
    LensAreInts(VecLens(iov[..count]));
    var n := 0;
    while n < count
      invariant 0 <= n <= count
      invariant forall i :: 0 <= i < n ==> headinfo[i] == iov[i].len
    {
      assert VecLens(iov[..count])[n] in VecLens(iov[..count]);
      SizeTExact(headinfo[n], iov[n].len);
      if SizeT(headinfo[n]) != iov[n].len {
        assert headinfo[n] != VecLens(iov[..count])[n];
        return -1;
      }
      n := n + 1;
    }
    assert headinfo == VecLens(iov[..count]);
    code := 0;
  }

  /** A header region of some ints and the parameters' regions lie in memory, all disjoint. */
  predicate RecvLayout(size: nat, hdr: nat, ints: nat, v: seq<IoVec>) {
    var whole := Addrs([IoVec(hdr, INT_BYTES * ints)] + v);
    InMemory(size, whole) && Disjoint(whole)
  }

  lemma WholeAddrs(hdr: nat, h: nat, v: seq<IoVec>)
    ensures Addrs([IoVec(hdr, h)] + v) == Region(hdr, h) + Addrs(v)
  {
    assert ([IoVec(hdr, h)] + v)[1..] == v;
  }

  /** A complete receive leaves the stream's first bytes in the header region. */
  lemma ReceivedHeader(mem: seq<byte>, hdr: nat, h: nat, v: seq<IoVec>, stream: seq<byte>)
    requires InMemory(|mem|, Addrs([IoVec(hdr, h)] + v)) && |Addrs([IoVec(hdr, h)] + v)| <= |stream| && h > 0
    requires var whole := Addrs([IoVec(hdr, h)] + v); forall i :: 0 <= i < |whole| ==> mem[whole[i]] == stream[i]
    ensures hdr + h <= |mem| && h <= |stream| && mem[hdr..hdr + h] == stream[..h]
  {
    var whole := Addrs([IoVec(hdr, h)] + v);
    WholeAddrs(hdr, h, v);
    assert forall i :: 0 <= i < h ==> whole[i] == hdr + i;
    assert whole[h - 1] == hdr + h - 1;
  }

  /** A complete receive leaves the bytes behind the header, cut to length, in the parameters. */
  lemma ReceivedParams(mem: seq<byte>, hdr: nat, h: nat, v: seq<IoVec>, stream: seq<byte>)
    requires InMemory(|mem|, Addrs([IoVec(hdr, h)] + v)) && |Addrs([IoVec(hdr, h)] + v)| <= |stream|
    requires var whole := Addrs([IoVec(hdr, h)] + v); forall i :: 0 <= i < |whole| ==> mem[whole[i]] == stream[i]
    ensures InMemory(|mem|, Addrs(v)) && h + Total(VecLens(v)) <= |stream|
    ensures Params(mem, v) == Split(stream[h..h + Total(VecLens(v))], VecLens(v))
  {
    var whole := Addrs([IoVec(hdr, h)] + v);
    WholeAddrs(hdr, h, v);
    assert forall i :: 0 <= i < |Addrs(v)| ==> whole[h + i] == Addrs(v)[i];
    AddrsCount(v);
    ParamsAreSplit(mem, v);
    assert Gather(mem, Addrs(v)) == stream[h..h + Total(VecLens(v))];
  }

  /** Some ints and behind them bytes of these lengths. */
  function WholeLen(ints: nat, lens: seq<nat>): nat {
    INT_BYTES * ints + Total(lens)
  }

  /**
    What both vector receives share: a zeroed header region in front of the parameters, one
    receive over both, the header's ints read back.
   */
  method RecvWithHeader(mem: array<byte>, hdr: nat, ints: nat, iov: array<IoVec>, count: nat, timeout: int,
                        stream: seq<byte>, env: nat -> RecvEvent)
    returns (received: int, consumed: nat, headinfo: seq<int>)
    requires count <= iov.Length && RecvLayout(mem.Length, hdr, ints, iov[..count]) && hdr <= mem.Length
    requires forall k :: RecvEventOk(env(k))
    modifies mem
    ensures received <= 0 && consumed <= INT_BYTES * ints + Total(VecLens(iov[..count])) && consumed <= |stream|
    ensures received == 0 <==> consumed == INT_BYTES * ints + Total(VecLens(iov[..count]))
    ensures var lens := VecLens(iov[..count]);
            |stream| >= WholeLen(ints, lens) ==> forall m: nat :: RecvCovers(env, m, timeout, WholeLen(ints, lens)) ==> received == 0
    ensures |headinfo| == ints && forall x :: x in headinfo ==> IsInt(x)
    ensures received == 0 ==>
              var h, end := INT_BYTES * ints, INT_BYTES * ints + Total(VecLens(iov[..count]));
              && headinfo == DecodeInts(stream[..h], ints)
              && InMemory(mem.Length, Addrs(iov[..count]))
              && Params(mem[..], iov[..count]) == Split(stream[h..end], VecLens(iov[..count]))
  {
    hide Addrs, Params, Split, EncodeInts, DecodeInts, EncodeInt, DecodeInt, Gather, Total, RecvEnds, RecvCovers;
    ghost var v := iov[..count];
    var h := INT_BYTES * ints;
    WholeAddrs(hdr, h, v);
    AddrsCount(v);
    if ints > 0 {
      HeaderInMemory(mem.Length, hdr, h, v);
    }
    var sum := SumLens(iov, count);
    StoreInts(mem, hdr, seq(ints, _ => 0));
    var whole := PrependHeader(IoVec(hdr, h), iov, count);
    assert whole[..count + 1] == whole[..];
    assert sum + h == WholeLen(ints, VecLens(v));
    var passes;
    received, consumed, passes := DoRecv(mem, whole, count + 1, sum + h, timeout, stream, env);
    headinfo := DecodeInts(mem[hdr..hdr + h], ints);
    if received == 0 {
      if ints > 0 {
        ReceivedHeader(mem[..], hdr, h, v, stream);
      }
      ReceivedParams(mem[..], hdr, h, v, stream);
      assert mem[hdr..hdr + h] == stream[..h];
    }
  }

  /**
    The client's receive: header and parameters in one go.  It reports 0 exactly when all
    bytes arrived in time and the frame is for this command with these lengths; then exactly
    one frame was read and the parameters hold its contents.
   */
  method Ouv(mem: array<byte>, hdr: nat, cmd: int, iov: array<IoVec>, count: nat, timeout: int,
             stream: seq<byte>, env: nat -> RecvEvent)
    returns (code: int, consumed: nat)
    requires count <= iov.Length && RecvLayout(mem.Length, hdr, count + HEADER_INTS, iov[..count])
    requires FrameLen(VecLens(iov[..count])) < 0x8000_0000
    requires forall k :: RecvEventOk(env(k))
    modifies mem
    ensures count + 1 > IOV_MAX ==> code == -1 && consumed == 0
    ensures count + 1 <= IOV_MAX ==>
              var lens := VecLens(iov[..count]);
              && (code == 0 || code == -2) && consumed <= FrameLen(lens)
              && (code == 0 <==> consumed == FrameLen(lens) && DecodeAll(stream, cmd, lens).Some?)
              && (|stream| >= FrameLen(lens) ==>
                    forall m: nat :: RecvCovers(env, m, timeout, FrameLen(lens)) ==> consumed == FrameLen(lens))
    ensures code == 0 ==>
              && InMemory(mem.Length, Addrs(iov[..count]))
              && DecodeAll(stream, cmd, VecLens(iov[..count])) == Some(Params(mem[..], iov[..count]))
  {
    if count + 1 > IOV_MAX {
      return -1, 0;
    }
    hide RecvCovers;
    RegionFits(mem.Length, hdr, count + HEADER_INTS, iov[..count]);
    var received, headinfo;
    received, consumed, headinfo := RecvWithHeader(mem, hdr, count + HEADER_INTS, iov, count, timeout, stream, env);
    assert WholeLen(count + HEADER_INTS, VecLens(iov[..count])) == FrameLen(VecLens(iov[..count]));
    if received < 0 {
      return -2, consumed;
    }
    var parsed := ParseHeader(cmd, iov, count, headinfo);
    code := if parsed < 0 then -2 else 0;
  }

  lemma RegionFits(size: nat, hdr: nat, ints: nat, v: seq<IoVec>)
    requires RecvLayout(size, hdr, ints, v) && ints > 0
    ensures hdr <= size
  {
    HeaderInMemory(size, hdr, INT_BYTES * ints, v);
  }

  lemma HeaderInMemory(size: nat, hdr: nat, h: nat, v: seq<IoVec>)
    requires InMemory(size, Addrs([IoVec(hdr, h)] + v)) && h > 0
    ensures hdr + h <= size
  {
    WholeAddrs(hdr, h, v);
    assert Addrs([IoVec(hdr, h)] + v)[h - 1] == hdr + h - 1;
  }

  /** The server's first receive: the fixed header, and what it says. */
  method OuHeader(mem: array<byte>, pkthdr: nat, timeout: int, stream: seq<byte>, env: nat -> RecvEvent)
    returns (code: int, consumed: nat, header: Option<PacketHeader>)
    requires pkthdr + HEADER_BYTES <= mem.Length
    requires forall k :: RecvEventOk(env(k))
    modifies mem
    ensures (code == 0 || code == -2) && consumed <= HEADER_BYTES && consumed <= |stream|
    ensures code == 0 <==> consumed == HEADER_BYTES
    ensures |stream| >= HEADER_BYTES ==> forall m: nat :: RecvCovers(env, m, timeout, HEADER_BYTES) ==> code == 0
    ensures header == if code == 0 then Some(DecodeHeader(stream)) else None
  {
    var hiov := new IoVec[1] (_ => IoVec(pkthdr, HEADER_BYTES));
    assert hiov[..1] == [IoVec(pkthdr, HEADER_BYTES)] + [];
    WholeAddrs(pkthdr, HEADER_BYTES, []);
    var received, passes;
    received, consumed, passes := DoRecv(mem, hiov, 1, HEADER_BYTES, timeout, stream, env);
    if received < 0 {
      return -2, consumed, None;
    }
    ReceivedHeader(mem[..], pkthdr, HEADER_BYTES, [], stream);
    var ints := DecodeInts(mem[pkthdr..pkthdr + 12], 3);
    assert mem[pkthdr..pkthdr + 12] == mem[pkthdr..pkthdr + HEADER_BYTES][..12] == stream[..12];
    return 0, consumed, Some(PacketHeader(ints[0], ints[1], ints[2]));
  }

  /** The server's second receive: lengths and parameters behind the fixed header. */
  method Ouv2(mem: array<byte>, hdr: nat, iov: array<IoVec>, count: nat, timeout: int,
              stream: seq<byte>, env: nat -> RecvEvent)
    returns (code: int, consumed: nat)
    requires count <= iov.Length && RecvLayout(mem.Length, hdr, count, iov[..count]) && hdr <= mem.Length
    requires FrameLen(VecLens(iov[..count])) < 0x8000_0000
    requires forall k :: RecvEventOk(env(k))
    modifies mem
    ensures count + 1 > IOV_MAX ==> code == -1 && consumed == 0
    ensures count + 1 <= IOV_MAX ==>
              var lens := VecLens(iov[..count]);
              && (code == 0 || code == -2) && consumed <= RestLen(lens)
              && (code == 0 <==> consumed == RestLen(lens) && DecodeRest(stream, lens).Some?)
              && (|stream| >= RestLen(lens) ==>
                    forall m: nat :: RecvCovers(env, m, timeout, RestLen(lens)) ==> consumed == RestLen(lens))
    ensures code == 0 ==>
              && InMemory(mem.Length, Addrs(iov[..count]))
              && DecodeRest(stream, VecLens(iov[..count])) == Some(Params(mem[..], iov[..count]))
  {
    if count + 1 > IOV_MAX {
      return -1, 0;
    }
    hide RecvCovers;
    var received, headinfo;
    received, consumed, headinfo := RecvWithHeader(mem, hdr, count, iov, count, timeout, stream, env);
    assert WholeLen(count, VecLens(iov[..count])) == RestLen(VecLens(iov[..count]));
    if received < 0 {
      return -2, consumed;
    }
    var parsed := ParseHeader2(iov, count, headinfo);
    code := if parsed < 0 then -2 else 0;
  }

  // ---------- end to end ----------

  /**
    A frame sent by one side and received at once by the other, whatever the partial writes
    and reads.  Two successes mean that the same command was expected; the receiver's vector
    then holds the sender's parameters, and exactly one frame was read, if and only if the
    numbers of parameters agree, which the receiver never checks.
   */
  method InvThenOuv(memIn: array<byte>, hdrIn: nat, cmd: int, iovIn: array<IoVec>, timeoutIn: int, script: seq<SendEvent>,
                    memOu: array<byte>, hdrOu: nat, cmd': int, iovOu: array<IoVec>, timeoutOu: int, env: nat -> RecvEvent,
                    later: seq<byte>)
    returns (sent: Outcome, code: int, consumed: nat)
    requires SendLayout(memIn.Length, hdrIn, iovIn[..]) && Fits(cmd, VecLens(iovIn[..]))
    requires RecvLayout(memOu.Length, hdrOu, iovOu.Length + HEADER_INTS, iovOu[..])
    requires FrameLen(VecLens(iovOu[..])) < 0x8000_0000 && memIn != memOu
    requires (forall e :: e in script ==> SendEventOk(e)) && forall k :: RecvEventOk(env(k))
    modifies memIn, memOu
    ensures sent == Returned(0) && code == 0 ==>
              && cmd' == cmd
              && InMemory(memOu.Length, Addrs(iovOu[..]))
              && (Params(memOu[..], iovOu[..]) == Params(old(memIn[..]), iovIn[..]) <==> iovOu.Length == iovIn.Length)
              && (consumed == FrameLen(VecLens(iovIn[..])) <==> iovOu.Length == iovIn.Length)
              && (iovOu.Length == iovIn.Length ==> VecLens(iovOu[..]) == VecLens(iovIn[..]))
    ensures var len := FrameLen(VecLens(iovIn[..]));
            && cmd' == cmd && VecLens(iovOu[..]) == VecLens(iovIn[..]) && iovIn.Length + 1 <= IOV_MAX
            && SendCovers(script, timeoutIn, len) && (exists m: nat :: RecvCovers(env, m, timeoutOu, len)) ==>
              sent == Returned(0) && code == 0
  {
    hide Frame, Behind, Satisfied, DecodeAll, DecodeRest, Params, Gather, Addrs, FrameLen, SendEnds, SendCovers, RecvCovers;
    assert iovIn[..iovIn.Length] == iovIn[..] && iovOu[..iovOu.Length] == iovOu[..];
    ghost var params, lens := Params(memIn[..], iovIn[..]), VecLens(iovOu[..]);
    ParamLens(memIn[..], iovIn[..]);
    var wire, used;
    sent, wire, used := Inv(memIn, hdrIn, cmd, iovIn, iovIn.Length, timeoutIn, script);
    code, consumed := Ouv(memOu, hdrOu, cmd', iovOu, iovOu.Length, timeoutOu, wire + later, env);
    FrameShape(cmd, params);
    AllAtOnceRoundTrip(cmd, params, later, cmd', lens);
  }

  /** The same for the two-step receiver, which first learns the number of parameters and need only use it. */
  method InvThenOuHeaderOuv2(memIn: array<byte>, hdrIn: nat, cmd: int, iovIn: array<IoVec>, timeoutIn: int, script: seq<SendEvent>,
                             memOu: array<byte>, pkthdr: nat, hdrOu: nat, iovOu: array<IoVec>, timeoutOu: int,
                             env: nat -> RecvEvent, env2: nat -> RecvEvent, later: seq<byte>)
    returns (sent: Outcome, header: Option<PacketHeader>, code: int, consumed: nat)
    requires SendLayout(memIn.Length, hdrIn, iovIn[..]) && Fits(cmd, VecLens(iovIn[..]))
    requires RecvLayout(memOu.Length, hdrOu, iovOu.Length, iovOu[..]) && hdrOu <= memOu.Length
    requires pkthdr + HEADER_BYTES <= memOu.Length && FrameLen(VecLens(iovOu[..])) < 0x8000_0000 && memIn != memOu
    requires (forall e :: e in script ==> SendEventOk(e)) && (forall k :: RecvEventOk(env(k))) && forall k :: RecvEventOk(env2(k))
    modifies memIn, memOu
    ensures sent == Returned(0) && header.Some? ==>
              header.value == PacketHeader(cmd, FrameLen(VecLens(iovIn[..])), iovIn.Length)
    ensures sent == Returned(0) && header.Some? && code == 0 ==>
              && InMemory(memOu.Length, Addrs(iovOu[..]))
              && (Params(memOu[..], iovOu[..]) == Params(old(memIn[..]), iovIn[..]) <==> iovOu.Length == header.value.cnt)
              && (consumed == FrameLen(VecLens(iovIn[..])) <==> iovOu.Length == header.value.cnt)
              && (iovOu.Length == header.value.cnt ==> VecLens(iovOu[..]) == VecLens(iovIn[..]))
    ensures var lens := VecLens(iovIn[..]);
            && VecLens(iovOu[..]) == lens && iovIn.Length + 1 <= IOV_MAX && SendCovers(script, timeoutIn, FrameLen(lens))
            && (exists m: nat :: RecvCovers(env, m, timeoutOu, HEADER_BYTES))
            && (exists m: nat :: RecvCovers(env2, m, timeoutOu, RestLen(lens))) ==>
              sent == Returned(0) && header.Some? && code == 0
  {
    hide Frame, Behind, Satisfied, DecodeHeader, DecodeRest, Params, Gather, Addrs, SendEnds, SendCovers, RecvCovers;
    assert iovIn[..iovIn.Length] == iovIn[..] && iovOu[..iovOu.Length] == iovOu[..];
    ghost var params, lens := Params(memIn[..], iovIn[..]), VecLens(iovOu[..]);
    ParamLens(memIn[..], iovIn[..]);
    FrameShape(cmd, params);
    var wire, used, code1;
    sent, wire, used := Inv(memIn, hdrIn, cmd, iovIn, iovIn.Length, timeoutIn, script);
    HeaderRoundTrip(cmd, params, later);
    var stream := wire + later;
    code1, consumed, header := OuHeader(memOu, pkthdr, timeoutOu, stream, env);
    if header.None? {
      return sent, None, -2, consumed;
    }
    var more;
    code, more := Ouv2(memOu, hdrOu, iovOu, iovOu.Length, timeoutOu, stream[HEADER_BYTES..], env2);
    consumed := consumed + more;
    TwoStepRoundTrip(cmd, params, later, lens);
  }

  lemma {:induction false} ParamLens(mem: seq<byte>, v: seq<IoVec>)
    requires InMemory(|mem|, Addrs(v))
    ensures Lens(Params(mem, v)) == VecLens(v)
  {
    if v != [] {
      AddrsSplit(v);
      ParamLens(mem, v[1..]);
      assert VecLens(v)[1..] == VecLens(v[1..]);
      assert Lens(Params(mem, v))[1..] == Lens(Params(mem, v[1..]));
    }
  }
}
