/** The local RPC transport: frames, the sender, and the two receivers. */
module Rpc {
  import opened Bytes
  import opened IoVectors

  const IOV_MAX: nat := 1024
  const HEADER_INTS: nat := 8
  const HEADER_BYTES: nat := 32

  datatype Option<T> = None | Some(value: T)

  // ---------- frames ----------

  function Total(lens: seq<nat>): nat {
    if lens == [] then 0 else lens[0] + Total(lens[1..])
  }

  function Concat(params: seq<seq<byte>>): seq<byte> {
    if params == [] then [] else params[0] + Concat(params[1..])
  }

  function Lens(params: seq<seq<byte>>): (lens: seq<nat>)
    ensures |lens| == |params|
  {
    seq(|params|, i requires 0 <= i < |params| => |params[i]|)
  }

  /** The length of a frame whose parameters have these lengths. */
  function FrameLen(lens: seq<nat>): nat {
    INT_BYTES * (|lens| + HEADER_INTS) + Total(lens)
  }

  /** What is behind the fixed header. */
  function RestLen(lens: seq<nat>): nat {
    INT_BYTES * |lens| + Total(lens)
  }

  function HeaderInts(cmd: int, lens: seq<nat>): seq<int> {
    [cmd, FrameLen(lens), |lens|, 0, 0, 0, 0, 0] + lens
  }

  /** What goes over the wire for one call: the header ints, the parameter lengths, the parameters. */
  function Frame(cmd: int, params: seq<seq<byte>>): seq<byte> {
    EncodeInts(HeaderInts(cmd, Lens(params))) + Concat(params)
  }

  /** Everything a frame carries as an int fits one. */
  predicate Fits(cmd: int, lens: seq<nat>) {
    IsInt(cmd) && FrameLen(lens) < 0x8000_0000
  }

  /** Bytes cut into consecutive pieces. */
  function Split(b: seq<byte>, lens: seq<nat>): (pieces: seq<seq<byte>>)
    requires |b| == Total(lens)
    ensures |pieces| == |lens|
  {
    if lens == [] then [] else [b[..lens[0]]] + Split(b[lens[0]..], lens[1..])
  }

  /** The client's decoder: the whole frame at once, lengths and command known beforehand. */
  function DecodeAll(stream: seq<byte>, cmd: int, lens: seq<nat>): Option<seq<seq<byte>>> {
    var h := INT_BYTES * (|lens| + HEADER_INTS);
    if |stream| < FrameLen(lens) then None
    else
      var header := DecodeInts(stream[..h], |lens| + HEADER_INTS);
      if header[0] == cmd && header[HEADER_INTS..] == lens then Some(Split(stream[h..FrameLen(lens)], lens)) else None
  }

  /** What the server learns first. */
  datatype PacketHeader = PacketHeader(cmd: int, len: int, cnt: int)

  function DecodeHeader(stream: seq<byte>): PacketHeader
    requires |stream| >= HEADER_BYTES
  {
    var ints := DecodeInts(stream[..12], 3);
    PacketHeader(ints[0], ints[1], ints[2])
  }

  /** The server's second decoder: the lengths and the parameters behind the fixed header. */
  function DecodeRest(stream: seq<byte>, lens: seq<nat>): Option<seq<seq<byte>>> {
    var h := INT_BYTES * |lens|;
    if |stream| < h + Total(lens) then None
    else if DecodeInts(stream[..h], |lens|) == lens then Some(Split(stream[h..h + Total(lens)], lens))
    else None
  }

  // ---------- round trips ----------

  lemma {:induction false} TotalOfLens(params: seq<seq<byte>>)
    ensures Total(Lens(params)) == |Concat(params)|
  {
    if params != [] {
      assert Lens(params)[1..] == Lens(params[1..]);
      TotalOfLens(params[1..]);
    }
  }

  lemma {:induction false} SplitConcat(params: seq<seq<byte>>)
    requires |Concat(params)| == Total(Lens(params))
    ensures Split(Concat(params), Lens(params)) == params
  {
    if params != [] {
      var b := Concat(params);
      assert Lens(params)[1..] == Lens(params[1..]);
      assert b[..|params[0]|] == params[0] && b[|params[0]|..] == Concat(params[1..]);
      TotalOfLens(params[1..]);
      SplitConcat(params[1..]);
    }
  }

  lemma {:induction false} LensAreInts(lens: seq<nat>)
    requires Total(lens) < 0x8000_0000
    ensures forall x :: x in lens ==> IsInt(x)
  {
    if lens != [] {
      LensAreInts(lens[1..]);
      assert lens == [lens[0]] + lens[1..];
    }
  }

  lemma FrameShape(cmd: int, params: seq<seq<byte>>)
    ensures |EncodeInts(HeaderInts(cmd, Lens(params)))| == INT_BYTES * (|params| + HEADER_INTS)
    ensures |Frame(cmd, params)| == FrameLen(Lens(params))
  {
    TotalOfLens(params);
  }

  lemma FrameInts(cmd: int, lens: seq<nat>)
    requires Fits(cmd, lens)
    ensures forall x :: x in HeaderInts(cmd, lens) ==> IsInt(x)
  {
    LensAreInts(lens);
  }

  /**
    Decoding a stream that starts with a frame, with the same number of parameters: the frame's
    parameters come back exactly, and only, when the command and all lengths agree.
   */
  lemma AllAtOnceSameNumber(cmd: int, params: seq<seq<byte>>, rest: seq<byte>, cmd': int, lens: seq<nat>)
    requires Fits(cmd, Lens(params)) && |lens| == |params|
    ensures DecodeAll(Frame(cmd, params) + rest, cmd', lens)
         == if cmd' == cmd && lens == Lens(params) then Some(params) else None
  {
    var stream := Frame(cmd, params) + rest;
    var h := INT_BYTES * (|lens| + HEADER_INTS);
    FrameShape(cmd, params);
    FrameInts(cmd, Lens(params));
    IntsRoundTrip(HeaderInts(cmd, Lens(params)));
    assert stream[..h] == EncodeInts(HeaderInts(cmd, Lens(params)));
    assert HeaderInts(cmd, Lens(params))[HEADER_INTS..] == Lens(params);
    if cmd' == cmd && lens == Lens(params) {
      assert stream[h..FrameLen(lens)] == Concat(params);
      SplitConcat(params);
    }
  }

  /** The fixed header tells the command, the frame's length and the number of parameters. */
  lemma HeaderRoundTrip(cmd: int, params: seq<seq<byte>>, rest: seq<byte>)
    requires Fits(cmd, Lens(params))
    ensures |Frame(cmd, params)| >= HEADER_BYTES
    ensures DecodeHeader(Frame(cmd, params) + rest) == PacketHeader(cmd, |Frame(cmd, params)|, |params|)
  {
    var lens := Lens(params);
    var first, others := [cmd, FrameLen(lens), |lens|], [0, 0, 0, 0, 0] + lens;
    FrameShape(cmd, params);
    assert HeaderInts(cmd, lens) == first + others;
    EncodeIntsConcat(first, others);
    assert (Frame(cmd, params) + rest)[..12] == EncodeInts(first);
    IntsRoundTrip(first);
  }

  /** The fixed header's other ints are zero. */
  lemma ReservedIntsAreZero(cmd: int, params: seq<seq<byte>>)
    requires Fits(cmd, Lens(params))
    ensures |Frame(cmd, params)| >= HEADER_BYTES
    ensures DecodeInts(Frame(cmd, params)[..HEADER_BYTES], HEADER_INTS)[3..] == [0, 0, 0, 0, 0]
  {
    hide EncodeInts, DecodeInts;
    var fixed := [cmd, FrameLen(Lens(params)), |params|, 0, 0, 0, 0, 0];
    FrameShape(cmd, params);
    assert HeaderInts(cmd, Lens(params)) == fixed + Lens(params);
    EncodeIntsConcat(fixed, Lens(params));
    assert Frame(cmd, params)[..HEADER_BYTES] == EncodeInts(fixed);
    IntsRoundTrip(fixed);
  }

  /** Behind the fixed header, the second decoder gives the parameters back exactly, and only, when all lengths agree. */
  lemma TwoStepSameNumber(cmd: int, params: seq<seq<byte>>, rest: seq<byte>, lens: seq<nat>)
    requires Fits(cmd, Lens(params)) && |lens| == |params|
    ensures |Frame(cmd, params)| >= HEADER_BYTES
    ensures DecodeRest((Frame(cmd, params) + rest)[HEADER_BYTES..], lens)
         == if lens == Lens(params) then Some(params) else None
  {
    var first := [cmd, FrameLen(Lens(params)), |params|, 0, 0, 0, 0, 0];
    var h := INT_BYTES * |lens|;
    FrameShape(cmd, params);
    assert HeaderInts(cmd, Lens(params)) == first + Lens(params);
    EncodeIntsConcat(first, Lens(params));
    var behind := (Frame(cmd, params) + rest)[HEADER_BYTES..];
    assert behind == EncodeInts(Lens(params)) + Concat(params) + rest;
    assert behind[..h] == EncodeInts(Lens(params));
    LensAreInts(Lens(params));
    IntsRoundTrip(Lens(params));
    if lens == Lens(params) {
      TotalOfLens(params);
      assert behind[h..h + Total(lens)] == Concat(params);
      SplitConcat(params);
    }
  }

  // ---------- any number of parameters ----------

  lemma {:induction false} IntsMore(a: seq<byte>, n: nat, b: seq<byte>, m: nat)
    requires |a| == INT_BYTES * n && |b| == INT_BYTES * m
    ensures DecodeInts(a + b, n + m) == DecodeInts(a, n) + DecodeInts(b, m)
  {
    if n == 0 {
      assert a + b == b;
    } else {
      assert (a + b)[..INT_BYTES] == a[..INT_BYTES] && (a + b)[INT_BYTES..] == a[INT_BYTES..] + b;
      IntsMore(a[INT_BYTES..], n - 1, b, m);
    }
  }

  lemma {:induction false} TotalOfConcat(a: seq<nat>, b: seq<nat>)
    ensures Total(a + b) == Total(a) + Total(b)
  {
    if a == [] {
      assert a + b == b;
    } else {
      assert (a + b)[1..] == a[1..] + b;
      TotalOfConcat(a[1..], b);
    }
  }

  /** m ints read where some lengths are followed by anything: the first m lengths, or all of them and what follows read as ints. */
  lemma LengthsRead(sent: seq<nat>, tail: seq<byte>, m: nat)
    requires INT_BYTES * m <= INT_BYTES * |sent| + |tail| && Total(sent) < 0x8000_0000
    ensures DecodeInts((EncodeInts(sent) + tail)[..INT_BYTES * m], m)
         == if m <= |sent| then sent[..m] else sent + DecodeInts(tail[..INT_BYTES * (m - |sent|)], m - |sent|)
  {
    hide DecodeInts, EncodeInts;
    LensAreInts(sent);
    var b := EncodeInts(sent) + tail;
    if m <= |sent| {
      assert sent == sent[..m] + sent[m..];
      EncodeIntsConcat(sent[..m], sent[m..]);
      assert b[..INT_BYTES * m] == EncodeInts(sent[..m]);
      IntsRoundTrip(sent[..m]);
    } else {
      var more := tail[..INT_BYTES * (m - |sent|)];
      assert b[..INT_BYTES * m] == EncodeInts(sent) + more;
      IntsRoundTrip(sent);
      IntsMore(EncodeInts(sent), |sent|, more, m - |sent|);
    }
  }

  /** What a stream holds behind the fixed header of a frame. */
  function Behind(params: seq<seq<byte>>, rest: seq<byte>): seq<byte> {
    EncodeInts(Lens(params)) + (Concat(params) + rest)
  }

  lemma FrameSplits(cmd: int, params: seq<seq<byte>>, rest: seq<byte>)
    ensures var fixed := [cmd, FrameLen(Lens(params)), |params|, 0, 0, 0, 0, 0];
            && Frame(cmd, params) + rest == EncodeInts(fixed) + Behind(params, rest)
            && (Frame(cmd, params) + rest)[HEADER_BYTES..] == Behind(params, rest)
  {
    var fixed := [cmd, FrameLen(Lens(params)), |params|, 0, 0, 0, 0, 0];
    hide EncodeInts, Concat;
    assert HeaderInts(cmd, Lens(params)) == fixed + Lens(params);
    EncodeIntsConcat(fixed, Lens(params));
  }

  /** Both decoders take the same from a frame: the all-at-once one also looks at the command. */
  lemma DecodersAgree(cmd: int, params: seq<seq<byte>>, rest: seq<byte>, cmd': int, lens: seq<nat>)
    requires Fits(cmd, Lens(params))
    ensures DecodeAll(Frame(cmd, params) + rest, cmd', lens)
         == if cmd' == cmd then DecodeRest(Behind(params, rest), lens) else None
  {
    hide EncodeInts, DecodeInts, Split, Concat, Total;
    var stream, behind := Frame(cmd, params) + rest, Behind(params, rest);
    var fixed := [cmd, FrameLen(Lens(params)), |params|, 0, 0, 0, 0, 0];
    var h := INT_BYTES * |lens|;
    FrameSplits(cmd, params, rest);
    if |stream| >= FrameLen(lens) {
      TotalOfLens(params);
      IntsRoundTrip(fixed);
      assert stream[..HEADER_BYTES + h] == EncodeInts(fixed) + behind[..h];
      IntsMore(EncodeInts(fixed), HEADER_INTS, behind[..h], |lens|);
      assert stream[HEADER_BYTES + h..FrameLen(lens)] == behind[h..h + Total(lens)];
    }
  }

  /** Which lengths a receiver may expect, of whatever number, and be satisfied by what is behind the fixed header. */
  predicate Satisfied(params: seq<seq<byte>>, rest: seq<byte>, lens: seq<nat>) {
    var n, m := |params|, |lens|;
    if m <= n then lens == Lens(params)[..m]
    else
      && INT_BYTES * m + Total(lens) <= |Behind(params, rest)|
      && lens[..n] == Lens(params)
      && lens[n..] == DecodeInts((Concat(params) + rest)[..INT_BYTES * (m - n)], m - n)
  }

  /**
    For any number of expected parameters: the second decoder is satisfied exactly by lengths
    that agree as far as both go, further ones being read out of the parameters themselves;
    and what it then yields is what was sent exactly when the numbers agree, as is how much
    of the stream it takes.
   */
  lemma NumberDecides(params: seq<seq<byte>>, rest: seq<byte>, lens: seq<nat>)
    requires Total(Lens(params)) < 0x8000_0000
    ensures var r := DecodeRest(Behind(params, rest), lens);
            && (r.Some? <==> Satisfied(params, rest, lens))
            && (r.Some? ==> (r.value == params <==> |lens| == |params|))
            && (r.Some? ==> (FrameLen(lens) == FrameLen(Lens(params)) <==> |lens| == |params|))
  {
    hide EncodeInts, DecodeInts, Split, Concat, Total;
    var sent, tail, m := Lens(params), Concat(params) + rest, |lens|;
    TotalOfLens(params);
    if INT_BYTES * m <= INT_BYTES * |sent| + |tail| {
      LengthsRead(sent, tail, m);
    }
    if m <= |sent| {
      assert sent == sent[..m] + sent[m..];
      TotalOfConcat(sent[..m], sent[m..]);
    } else {
      assert lens == lens[..|sent|] + lens[|sent|..];
      TotalOfConcat(lens[..|sent|], lens[|sent|..]);
    }
    if lens == sent {
      assert sent[..m] == sent;
      assert Behind(params, rest)[INT_BYTES * m..INT_BYTES * m + Total(lens)] == Concat(params);
      SplitConcat(params);
    }
  }

  /**
    Decoding a stream that starts with a frame, whatever command, lengths and number of
    parameters are expected: which expectations are met, and that the parameters come back
    exactly when command and lengths agree, that is, when a decode succeeds for their number.
   */
  lemma AllAtOnceRoundTrip(cmd: int, params: seq<seq<byte>>, rest: seq<byte>, cmd': int, lens: seq<nat>)
    requires Fits(cmd, Lens(params))
    ensures var r := DecodeAll(Frame(cmd, params) + rest, cmd', lens);
            && (r.Some? <==> cmd' == cmd && Satisfied(params, rest, lens))
            && (r == Some(params) <==> cmd' == cmd && lens == Lens(params))
            && (r.Some? ==> (r.value == params <==> |lens| == |params|))
            && (r.Some? ==> (FrameLen(lens) == |Frame(cmd, params)| <==> |lens| == |params|))
  {
    DecodersAgree(cmd, params, rest, cmd', lens);
    FrameShape(cmd, params);
    NumberDecides(params, rest, lens);
    AllAtOnceSameNumber(cmd, params, rest, cmd, Lens(params));
    hide Frame, Behind, DecodeAll, DecodeRest, Satisfied, FrameLen;
    if |lens| == |params| {
      AllAtOnceSameNumber(cmd, params, rest, cmd', lens);
    }
  }

  /** The same behind the fixed header, which the second decoder does not see. */
  lemma TwoStepRoundTrip(cmd: int, params: seq<seq<byte>>, rest: seq<byte>, lens: seq<nat>)
    requires Fits(cmd, Lens(params))
    ensures |Frame(cmd, params)| >= HEADER_BYTES
    ensures var r := DecodeRest((Frame(cmd, params) + rest)[HEADER_BYTES..], lens);
            && (r.Some? <==> Satisfied(params, rest, lens))
            && (r == Some(params) <==> lens == Lens(params))
            && (r.Some? ==> (r.value == params <==> |lens| == |params|))
            && (r.Some? ==> (FrameLen(lens) == |Frame(cmd, params)| <==> |lens| == |params|))
  {
    FrameShape(cmd, params);
    FrameSplits(cmd, params, rest);
    NumberDecides(params, rest, lens);
    TwoStepSameNumber(cmd, params, rest, Lens(params));
    hide Frame, Behind, DecodeRest, Satisfied, FrameLen;
    if |lens| == |params| {
      TwoStepSameNumber(cmd, params, rest, lens);
    }
  }

  /**
    A frame with the one parameter of four zero bytes, received as two parameters of four bytes
    and none: the zero bytes pass for the second length and the next four bytes of the stream
    for the first parameter.
   */
  lemma OneReceivedAsTwo(later: seq<byte>)
    requires |later| == 4
    ensures |Frame(1, [[0, 0, 0, 0]])| == 40 && FrameLen([4, 0]) == 44
    ensures DecodeAll(Frame(1, [[0, 0, 0, 0]]) + later, 1, [4, 0]) == Some([later, []])
  {
    hide Frame, Split, EncodeInts, DecodeInts;
    var zeros: seq<byte>, lens: seq<nat> := [0, 0, 0, 0], [4, 0];
    var params := [zeros];
    assert params[1..] == [] && Concat(params) == zeros && Lens(params) == [4];
    assert Total([4]) == 4 && lens[1..] == [0] && Total([0]) == 0 && Total(lens) == 4;
    FrameShape(1, params);
    DecodersAgree(1, params, later, 1, lens);
    ZeroReadsAsZero();
    assert (zeros + later)[..INT_BYTES] == zeros && lens[..1] == [4];
    NumberDecides(params, later, lens);
    assert Behind(params, later)[8..12] == later;
    SplitFourAndNone(later);
  }

  lemma ZeroReadsAsZero()
    ensures DecodeInts([0, 0, 0, 0], 1) == [0]
  {
    var zeros: seq<byte> := [0, 0, 0, 0];
    assert zeros[..INT_BYTES] == zeros && DecodeInt(zeros) == 0 && zeros[INT_BYTES..] == [];
  }

  lemma SplitFourAndNone(b: seq<byte>)
    requires |b| == 4
    ensures Split(b, [4, 0]) == [b, []]
  {
    var none: seq<byte>, last: seq<nat>, lens: seq<nat> := [], [0], [4, 0];
    assert lens[1..] == last && last[1..] == [];
    assert b[4..] == none && b[..4] == b && none[..0] == none && none[0..] == none;
    assert Split(none, last) == [none];
  }
}
