/**
  The chain of transmit buffers in place: linked both ways, totals and cursor kept in the
  first buffer, and the write operation that drains it.
 */
module Chain {
  import opened Bytes
  import opened ChainBytes

  const MAX_IOVEC: nat := 16

  class CBuffer {
    var msg: seq<byte>
    var consumed: nat
    var bytesTrans: nat
    var bytesTotal: nat
    var count: nat
    var next: CBuffer?
    var prev: CBuffer?
    var head: CBuffer?
    var end: CBuffer?
    var cur: CBuffer?

    constructor (data: seq<byte>)
      ensures Alone(data)
    {
      msg, consumed, bytesTrans, bytesTotal, count := data, 0, 0, |data|, 1;
      next, prev := null, null;
      head, end, cur := this, this, this;
    }

    /** A buffer on its own, nothing of it transmitted. */
    ghost predicate Alone(data: seq<byte>)
      reads this
    {
      && msg == data && consumed == 0 && bytesTrans == 0 && bytesTotal == |data| && count == 1
      && next == null && prev == null && head == this && end == this && cur == this
    }

    method Construct(data: seq<byte>)
      modifies this
      ensures Alone(data)
    {
      msg, consumed, bytesTrans, bytesTotal, count := data, 0, 0, |data|, 1;
      next, prev := null, null;
      head, end, cur := this, this, this;
    }

    /** Put another chain behind this buffer, which must end its chain; the other must be handed over by its first buffer, untouched. */
    method Append(ghost c: seq<CBuffer>, ghost d: seq<CBuffer>, buf: CBuffer) returns (ok: bool)
      requires IsChain(c) && this in c && IsChain(d) && buf in d && (c == d || Apart(c, d))
      modifies c`next, d`prev, c`head, d`head, c`bytesTotal, c`count, c`end
      ensures ok == old(CanJoin(c, d, buf))
      ensures ok ==> IsChain(c + d) && (old(Totals(c) && Totals(d)) ==> Totals(c + d))
      ensures ok && old(IsExact(c) && IsExact(d)) ==> (IsExact(c + d) <==> c[0].cur != null || Size(Lens(d)) == 0)
      ensures !ok ==> unchanged(c) && unchanged(d)
    {
      hide Linked, Totals, Msgs, Lens, Size, IsExact;
      CanJoinTest(c, d, buf);
      if buf == head || next != null || buf.head.bytesTrans != 0 || buf.prev != null {
        return false;
      }
      Join(c, d, buf);
      if old(IsExact(c) && IsExact(d)) {
        JoinedIsExactIff(c, d);
      }
      ok := true;
    }

    /** This buffer ends its chain, the other starts a chain of its own, nothing of which was transmitted. */
    ghost predicate CanJoin(c: seq<CBuffer>, d: seq<CBuffer>, buf: CBuffer)
      requires c != [] && d != []
      reads d`bytesTrans
    {
      c != d && this == c[|c| - 1] && buf == d[0] && d[0].bytesTrans == 0
    }

    lemma CanJoinTest(c: seq<CBuffer>, d: seq<CBuffer>, buf: CBuffer)
      requires IsChain(c) && this in c && IsChain(d) && buf in d && (c == d || Apart(c, d))
      ensures CanJoin(c, d, buf) <==> !(buf == head || next != null || buf.head.bytesTrans != 0 || buf.prev != null)
    {
      var i :| 0 <= i < |c| && c[i] == this;
      var j :| 0 <= j < |d| && d[j] == buf;
      assert next == Item(c, i + 1) && buf.prev == Item(d, j - 1);
    }

    method Join(ghost c: seq<CBuffer>, ghost d: seq<CBuffer>, buf: CBuffer)
      requires IsChain(c) && IsChain(d) && Apart(c, d) && c != [] && d != [] && this == c[|c| - 1] && buf == d[0]
      modifies c`next, d`prev, c`head, d`head, c`bytesTotal, c`count, c`end
      ensures IsChain(c + d) && (old(Totals(c) && Totals(d)) ==> Totals(c + d))
    {
      hide IsChain, Msgs, Lens, Size, Linked, Totals;
      assert this in c && buf in d;
      HeadIsFirst(c);
      buf.HeadIsFirst(d);
      LensOfConcat(c, d);
      LinkTo(c, d, buf);
      AddTotals(c, d, buf);
      PointAtHead(c + d);
    }

    method AddTotals(ghost c: seq<CBuffer>, ghost d: seq<CBuffer>, buf: CBuffer)
      requires c != [] && d != [] && head == c[0] && buf.head == d[0] && c[0] != d[0]
      modifies head`bytesTotal, head`count, head`end
      ensures old(Totals(c) && Totals(d)) && Size(Lens(c + d)) == Size(Lens(c)) + Size(Lens(d)) ==> Totals(c + d)
    {
      hide Msgs, Lens, Size;
      head.bytesTotal := head.bytesTotal + buf.head.bytesTotal;
      head.count := head.count + buf.head.count;
      head.end := buf.head.end;
    }

    method LinkTo(ghost c: seq<CBuffer>, ghost d: seq<CBuffer>, buf: CBuffer)
      requires IsChain(c) && IsChain(d) && Apart(c, d) && this == c[|c| - 1] && buf == d[0]
      modifies c`next, d`prev
      ensures Linked(c + d)
    {
      assert this in c && buf in d;
      next := buf;
      buf.prev := this;
      assert Forward(c, d[0]);
      assert Backward(d, c[|c| - 1]);
      LinkedJoin(c, d);
    }

    /** Point every item of newly linked buffers at the first. */
    method PointAtHead(ghost c: seq<CBuffer>)
      requires c != [] && head == c[0] && Linked(c)
      modifies c`head
      ensures IsChain(c)
    {
      var first := head;
      var item := first;
      ghost var i := 0;
      while item != null && item.next != first
        invariant 0 <= i <= |c| && item == Item(c, i)
        invariant forall k :: 0 <= k < i ==> c[k].head == first
        modifies c`head
        decreases |c| - i
      {
        item.head := first;
        item := item.next;
        i := i + 1;
      }
    }

    /** Rewrite what every item has consumed from a count of bytes gone; items gone past are charged this buffer's length. */
    method SetBytes(ghost c: seq<CBuffer>, n: nat)
      requires IsChain(c) && this in c && n < SIZE_T
      modifies c`consumed, head`bytesTrans, head`cur
      ensures c[0].bytesTrans == Min(n, c[0].bytesTotal)
      ensures Consumed(c) == Walk(Lens(c), |msg|, n).consumed
      ensures var at := Walk(Lens(c), |msg|, n).cursor; c[0].cur == if at.At? then Item(c, at.index) else old(c[0].cur)
    {
      hide IsChain, Walk, Lens, Consumed, Share, Item;
      HeadIsFirst(c);
      head.bytesTrans := if n > head.bytesTotal then head.bytesTotal else n;
      ZeroAll(c);
      WalkItems(c, Lens(c), n);
      ConsumedIs(c, Walk(Lens(c), |msg|, n).consumed);
    }

    lemma HeadIsFirst(c: seq<CBuffer>)
      requires IsChain(c) && this in c
      ensures head == c[0] && Distinct(c)
    {
    }

    /**
      Cut the chain in two at this buffer's cursor.  The first part counts as transmitted;
      the second gets its counts, but keeps whatever end and cursor its first buffer had.
     */
    method SplitFromCur(ghost c: seq<CBuffer>) returns (buf1: CBuffer?, buf2: CBuffer?, ghost k: nat)
      requires IsChain(c) && this in c && (cur != null ==> cur in c)
      modifies c`next, c`prev, c`head, c`bytesTotal, c`bytesTrans, c`count, head`end, head`cur
      ensures buf2 == old(cur)
      ensures old(cur == null || cur == c[0]) ==> buf1 == null && unchanged(c)
      ensures old(cur != null && cur != c[0]) ==>
                && 0 < k < |c| && buf1 == c[0] && buf2 == c[k]
                && IsChain(c[..k]) && Totals(c[..k]) && c[0].bytesTrans == c[0].bytesTotal && c[0].cur == null
                && IsChain(c[k..]) && c[k].bytesTotal == Size(Lens(c[k..])) && c[k].count == |c| - k
                && c[k].bytesTrans == c[k].consumed
                && (old(this == c[0] && IsExact(c)) ==>
                      && old(c[0].bytesTrans) == c[0].bytesTrans + c[k].bytesTrans
                      && IsExact(c[..k]) && (c[k].cur == c[k] ==> IsExact(c[k..])))
    {
      hide IsChain, Lens, Msgs, Size, Linked, Pointed, Consumed, Share, CursorOf;
      k := 0;
      HeadIsFirst(c);
      PrevIsNull(c);
      if cur == null || cur.prev == null {
        return null, cur, k;
      }
      buf1, buf2 := head, cur;
      k :| 0 <= k < |c| && c[k] == cur;
      SplitAt(c, k, cur);
      if old(this == c[0] && IsExact(c)) {
        CursorAt(c, k);
        PartsAreExact(c, k, old(c[0].bytesTrans));
      }
    }

    method SplitAt(ghost c: seq<CBuffer>, ghost k: nat, at: CBuffer)
      requires IsChain(c) && this in c && 0 < k < |c| && at == c[k]
      modifies c`next, c`prev, c`head, c`bytesTotal, c`bytesTrans, c`count, head`end, head`cur
      ensures IsChain(c[..k]) && Totals(c[..k]) && c[0].bytesTrans == c[0].bytesTotal && c[0].cur == null
      ensures IsChain(c[k..]) && c[k].bytesTotal == Size(Lens(c[k..])) && c[k].count == |c| - k
      ensures c[k].bytesTrans == c[k].consumed
    {
      hide IsChain, Lens, Msgs, Size, Linked;
      HeadIsFirst(c);
      var first: CBuffer := head;
      CountFront(c, k, at);
      first.bytesTrans := first.bytesTotal;
      at.CutOff(c, k);
      at.bytesTrans := at.consumed;
      at.Separate(c, k);
      first.cur := null;
    }

    /** With this buffer cut off, count it and those behind it as a chain of its own. */
    method Separate(ghost c: seq<CBuffer>, ghost k: nat)
      requires 0 < k < |c| && c[k] == this && IsChain(c[..k]) && Linked(c[k..]) && Apart(c[..k], c[k..])
      requires c[0].bytesTotal == Size(Lens(c[..k])) && c[0].count == k && c[0].end == c[k - 1]
      modifies c[k..]`head, `bytesTotal, `count
      ensures IsChain(c[..k]) && Totals(c[..k]) && c[0].bytesTotal == old(c[0].bytesTotal)
      ensures IsChain(c[k..]) && bytesTotal == Size(Lens(c[k..])) && count == |c| - k
    {
      hide Lens, Msgs, Size, Linked;
      assert c[..k][0] == c[0] && c[..k][k - 1] == c[k - 1] && c[k..][0] == this;
      assert c[0] in c[..k] && this in c[k..];
      CountBack(c[k..]);
      assert forall i :: 0 <= i < k ==> c[..k][i] in c[..k];
    }

    lemma PrevIsNull(c: seq<CBuffer>)
      requires IsChain(c) && (cur != null ==> cur in c)
      ensures cur != null ==> (cur.prev == null <==> cur == c[0])
    {
    }

    /** Unlink this buffer from the one before it. */
    method CutOff(ghost c: seq<CBuffer>, ghost k: nat)
      requires IsChain(c) && 0 < k < |c| && c[k] == this
      modifies c`next, `prev
      ensures IsChain(c[..k]) && Linked(c[k..]) && Apart(c[..k], c[k..])
    {
      prev.next := null;
      prev := null;
      CutInTwo(c, k);
    }

    /** Recount the items in front of the cut. */
    method CountFront(ghost c: seq<CBuffer>, ghost k: nat, stop: CBuffer)
      requires IsChain(c) && this in c && 0 < k < |c| && stop == c[k]
      modifies head`bytesTotal, head`count, head`end
      ensures c[0].bytesTotal == Size(Lens(c[..k])) && c[0].count == k && c[0].end == c[k - 1]
    {
      hide Lens, Msgs, Size, Backward;
      var first: CBuffer := head;
      first.bytesTotal, first.count := 0, 0;
      var item: CBuffer? := first;
      ghost var i := 0;
      NoSize();
      while item != null && item != stop
        invariant 0 <= i <= k && item == c[i] && first == c[0]
        invariant first.bytesTotal == Size(Lens(c[..i])) && first.count == i && (i > 0 ==> first.end == c[i - 1])
        modifies first`bytesTotal, first`count, first`end
        decreases k - i
      {
        SizeOfOneMore(c, i);
        first.bytesTotal := first.bytesTotal + |item.msg|;
        first.end := item;
        first.count := first.count + 1;
        item := item.next;
        i := i + 1;
      }
    }

    /** Make this buffer the head of those it is linked to. */
    method CountBack(ghost c: seq<CBuffer>)
      requires c != [] && this == c[0] && Linked(c)
      modifies c`head, `bytesTotal, `count
      ensures IsChain(c) && bytesTotal == Size(Lens(c)) && count == |c|
    {
      hide Lens, Msgs, Size, Backward;
      bytesTotal, count := 0, 0;
      var item: CBuffer? := this;
      ghost var i := 0;
      NoSize();
      while item != null
        invariant 0 <= i <= |c| && item == Item(c, i)
        invariant forall k :: 0 <= k < i ==> c[k].head == this
        invariant bytesTotal == Size(Lens(c[..i])) && count == i
        modifies c`head, `bytesTotal, `count
        decreases |c| - i
      {
        SizeOfOneMore(c, i);
        item.head := this;
        item.head.bytesTotal := item.head.bytesTotal + |item.msg|;
        count := count + 1;
        item := item.next;
        i := i + 1;
      }
      assert c[..|c|] == c;
    }

    /** Empty every buffer of the chain and take the chain apart. */
    method Reset(ghost c: seq<CBuffer>)
      requires IsChain(c) && this in c
      modifies c
      ensures forall k :: 0 <= k < |c| ==> c[k].Alone([])
    {
      var item := head;
      ghost var i := 0;
      while item != null
        invariant 0 <= i <= |c| && item == Item(c, i)
        invariant forall k {:trigger c[k].next} :: i <= k < |c| ==> c[k].next == Item(c, k + 1)
        invariant forall k :: 0 <= k < i ==> c[k].Alone([])
        decreases |c| - i
      {
        var after := item.next;
        item.Construct([]);
        item := after;
        i := i + 1;
      }
    }

    method ZeroAll(ghost c: seq<CBuffer>)
      requires IsChain(c) && this in c
      modifies c`consumed
      ensures Consumed(c) == Zeros(|c|)
    {
      var item := head;
      ghost var i := 0;
      while item != null
        invariant 0 <= i <= |c| && item == Item(c, i)
        invariant forall k :: 0 <= k < i ==> c[k].consumed == 0
        decreases |c| - i
      {
        item.consumed := 0;
        item := item.next;
        i := i + 1;
      }
    }

    method WalkItems(ghost c: seq<CBuffer>, ghost lens: seq<nat>, n: nat)
      requires IsChain(c) && this in c && n < SIZE_T
      requires |lens| == |c| && forall k :: 0 <= k < |c| ==> lens[k] == |c[k].msg| && c[k].consumed == 0
      modifies c`consumed, head`cur
      ensures var whole := Walk(lens, |msg|, n);
              && (forall k :: 0 <= k < |c| ==> c[k].consumed == whole.consumed[k])
              && c[0].cur == if whole.cursor.At? then Item(c, whole.cursor.index) else old(c[0].cur)
    {
      hide Minus, Walk, Continues, Backward;
      var bytes: nat := n;
      var item := head;
      ghost var i, done: seq<nat> := 0, [];
      ghost var whole := Walk(lens, |msg|, n);
      WalkBegins(lens, |msg|, n);
      while item != null
        invariant 0 <= i <= |c| && item == Item(c, i) && bytes < SIZE_T && |done| == i
        invariant c[0].cur == old(c[0].cur)
        invariant forall k :: 0 <= k < i ==> c[k].consumed == done[k]
        invariant forall k :: i <= k < |c| ==> c[k].consumed == 0
        invariant Continues(whole, done, Walk(lens[i..], |msg|, bytes))
        decreases |c| - i
      {
        if |item.msg| < bytes {
          WalkPasses(lens, |msg|, i, whole, done, bytes);
          item.consumed := |msg|;
          bytes := Minus(bytes, |msg|);
          done := done + [|msg|];
        } else {
          WalkHalts(lens, |msg|, i, whole, done, bytes);
          HaltAt(c, i, item, bytes);
          return;
        }
        item := item.next;
        i := i + 1;
      }
      WalkEnds(|msg|, whole, done, bytes);
    }

    /** The last item of a walk takes what is left, and the cursor stays on it unless that fills it. */
    method HaltAt(ghost c: seq<CBuffer>, ghost i: nat, item: CBuffer, bytes: nat)
      requires IsChain(c) && this in c && i < |c| && item == c[i] && bytes <= |item.msg|
      modifies item`consumed, head`cur
      ensures item.consumed == bytes && c[0].cur == Item(c, if bytes < |item.msg| then i else i + 1)
    {
      item.consumed := bytes;
      if |item.msg| > bytes {
        head.cur := item;
      } else {
        head.cur := item.next;
      }
    }

    /** Count more bytes as transmitted, never past the total. */
    method AddBytes(ghost c: seq<CBuffer>, n: nat)
      requires IsChain(c) && this in c && Totals(c) && Size(Lens(c)) < SIZE_T
      modifies c`consumed, head`bytesTrans, head`cur
      ensures View(c) == Advance(Lens(c), |msg|, old(View(c)), n)
    {
      hide IsChain, Walk, Lens, Consumed, CursorOf, Size, Plus;
      HeadIsFirst(c);
      head.bytesTrans := Plus(head.bytesTrans, n);
      if head.bytesTrans > head.bytesTotal {
        head.bytesTrans := head.bytesTotal;
      }
      ghost var at := Walk(Lens(c), |msg|, head.bytesTrans).cursor;
      SetBytes(c, head.bytesTrans);
      if at.At? {
        CursorAt(c, at.index);
      }
    }
  }

  // ---------- chains ----------

  ghost function Neighbour(c: seq<CBuffer>, k: int, outside: CBuffer?): CBuffer? {
    if 0 <= k < |c| then c[k] else outside
  }

  ghost function Item(c: seq<CBuffer>, k: int): CBuffer? {
    Neighbour(c, k, null)
  }

  /** Buffers linked both ways, in this order, all pointing at the first. */
  ghost predicate IsChain(c: seq<CBuffer>)
    reads c`next, c`prev, c`head
  {
    && c != []
    && Linked(c)
    && forall i {:trigger c[i].head} :: 0 <= i < |c| ==> c[i].head == c[0]
  }

  ghost predicate Linked(c: seq<CBuffer>)
    reads c`next, c`prev
  {
    Distinct(c) && Forward(c, null) && Backward(c, null)
  }

  ghost predicate Distinct(c: seq<CBuffer>) {
    forall i, j :: 0 <= i < j < |c| ==> c[i] != c[j]
  }

  /** The forward links run through c and then to whatever comes after. */
  ghost predicate Forward(c: seq<CBuffer>, after: CBuffer?)
    reads c`next
  {
    forall i {:trigger c[i].next} :: 0 <= i < |c| ==> c[i].next == Neighbour(c, i + 1, after)
  }

  ghost predicate Backward(c: seq<CBuffer>, before: CBuffer?)
    reads c`prev
  {
    forall i {:trigger c[i].prev} :: 0 <= i < |c| ==> c[i].prev == Neighbour(c, i - 1, before)
  }

  /** With the two links at a cut removed, both parts are linked. */
  lemma CutInTwo(c: seq<CBuffer>, k: nat)
    requires 0 < k < |c| && Distinct(c) && c[k - 1].next == null && c[k].prev == null
    requires forall i {:trigger c[i].next} :: 0 <= i < |c| && i != k - 1 ==> c[i].next == Neighbour(c, i + 1, null)
    requires forall i {:trigger c[i].prev} :: 0 <= i < |c| && i != k ==> c[i].prev == Neighbour(c, i - 1, null)
    ensures Linked(c[..k]) && Linked(c[k..]) && Apart(c[..k], c[k..])
  {
  }

  lemma NoSize()
    ensures Size(Lens([])) == 0
  {
  }

  lemma SizeOfOneMore(c: seq<CBuffer>, i: nat)
    requires i < |c|
    ensures Size(Lens(c[..i + 1])) == Size(Lens(c[..i])) + |c[i].msg|
  {
    assert c[..i + 1] == c[..i] + [c[i]];
    LensOfConcat(c[..i], [c[i]]);
  }

  /** Joined to a chain nothing of which was transmitted, a chain's progress stays exact unless its cursor was past its end. */
  lemma JoinedIsExactIff(c: seq<CBuffer>, d: seq<CBuffer>)
    requires c != [] && d != [] && IsChain(c + d) && d[0].bytesTrans == 0
    requires IsExact(c) && IsExact(d)
    ensures IsExact(c + d) <==> c[0].cur != null || Size(Lens(d)) == 0
  {
    hide Lens, Size, Share, Consumed, Pointed;
    LensOfConcat(c, d);
    NothingShared(Lens(d));
    assert Consumed(c + d) == Consumed(c) + Consumed(d);
    var k := View(c).cursor.index;
    assert c[0].cur == Item(c, k);
    CursorAt(c + d, if k < |c| then k else |c + d|);
    AppendExactIff(Lens(c), Lens(d), View(c));
  }

  /** A chain cut at its cursor: the first part used up, the second with its first buffer's bytes gone. */
  lemma PartsAreExact(c: seq<CBuffer>, k: nat, n: nat)
    requires Distinct(c) && 0 < k < |c| && Consumed(c) == Share(Lens(c), n) && Pointed(Lens(c), n, k)
    requires c[0].cur == null && c[0].bytesTrans == Size(Lens(c[..k])) && c[k].bytesTrans == c[k].consumed
    ensures n == c[0].bytesTrans + c[k].bytesTrans
    ensures IsExact(c[..k]) && (c[k].cur == c[k] ==> IsExact(c[k..]))
  {
    hide Msgs, Lens, Consumed, Size, Share;
    var lens := Lens(c);
    assert Lens(c[..k]) == lens[..k] && Lens(c[k..]) == lens[k..];
    assert Consumed(c[..k]) == Consumed(c)[..k] && Consumed(c[k..]) == Consumed(c)[k..];
    SharesSplit(lens, n, k);
    assert lens[..k][..k] == lens[..k];
    CursorAt(c[..k], k);
    CursorAt(c[k..], 0);
    PointedAtFirst(lens[k..], c[k].consumed);
  }

  lemma PointedAtFirst(lens: seq<nat>, n: nat)
    requires lens != [] && n <= lens[0]
    ensures Pointed(lens, n, 0)
  {
    assert lens[..1][1..] == [];
  }

  lemma DistinctJoin(c: seq<CBuffer>, d: seq<CBuffer>)
    requires Distinct(c) && Distinct(d) && Apart(c, d)
    ensures Distinct(c + d)
  {
    forall i, j | 0 <= i < j < |c + d| ensures (c + d)[i] != (c + d)[j] {
      if j < |c| {
        assert c[i] != c[j];
      } else if i < |c| {
        assert c[i] in c && d[j - |c|] in d;
      } else {
        assert d[i - |c|] != d[j - |c|];
      }
    }
  }

  lemma LinkedJoin(c: seq<CBuffer>, d: seq<CBuffer>)
    requires c != [] && d != [] && Distinct(c) && Distinct(d) && Apart(c, d)
    requires Forward(c, d[0]) && Forward(d, null) && Backward(c, null) && Backward(d, c[|c| - 1])
    ensures Linked(c + d)
  {
    DistinctJoin(c, d);
    forall i | 0 <= i < |c + d|
      ensures (c + d)[i].next == Neighbour(c + d, i + 1, null)
      ensures (c + d)[i].prev == Neighbour(c + d, i - 1, null)
    {
      if i < |c| {
        assert (c + d)[i] == c[i];
      } else {
        assert (c + d)[i] == d[i - |c|];
      }
    }
  }

  lemma LensOfConcat(c: seq<CBuffer>, d: seq<CBuffer>)
    ensures Lens(c + d) == Lens(c) + Lens(d) && Size(Lens(c + d)) == Size(Lens(c)) + Size(Lens(d))
  {
    hide Msgs, Lens;
    assert Lens(c + d) == Lens(c) + Lens(d);
    SizeOfConcat(Lens(c), Lens(d));
  }

  ghost function Msgs(c: seq<CBuffer>): (msgs: seq<seq<byte>>)
    reads c`msg
    ensures |msgs| == |c| && forall i :: 0 <= i < |c| ==> msgs[i] == c[i].msg
  {
    if c == [] then [] else [c[0].msg] + Msgs(c[1..])
  }

  ghost function Lens(c: seq<CBuffer>): (lens: seq<nat>)
    reads c`msg
    ensures |lens| == |c| && forall i :: 0 <= i < |c| ==> lens[i] == |c[i].msg|
  {
    Lengths(Msgs(c))
  }

  ghost function Consumed(c: seq<CBuffer>): (consumed: seq<nat>)
    reads c`consumed
    ensures |consumed| == |c| && forall i :: 0 <= i < |c| ==> consumed[i] == c[i].consumed
  {
    if c == [] then [] else [c[0].consumed] + Consumed(c[1..])
  }

  lemma ConsumedIs(c: seq<CBuffer>, consumed: seq<nat>)
    requires |consumed| == |c| && forall k :: 0 <= k < |c| ==> c[k].consumed == consumed[k]
    ensures Consumed(c) == consumed
  {
  }

  /** The aggregates kept in the first buffer. */
  ghost predicate Totals(c: seq<CBuffer>)
    requires c != []
    reads c`bytesTotal, c`count, c`end, c`msg
  {
    c[0].bytesTotal == Size(Lens(c)) && c[0].count == |c| && c[0].end == c[|c| - 1]
  }

  ghost predicate Apart(c: seq<CBuffer>, d: seq<CBuffer>) {
    forall x :: x in c ==> x !in d
  }

  /** A cursor as an index into a chain: null is past the end. */
  ghost function CursorOf(c: seq<CBuffer>, cur: CBuffer?): Cursor {
    if exists k: nat :: k <= |c| && cur == Item(c, k)
    then var k: nat :| k <= |c| && cur == Item(c, k); At(k) else Unmoved
  }

  /** The progress a chain shows. */
  ghost function View(c: seq<CBuffer>): Progress
    requires c != []
    reads c`consumed, c`bytesTrans, c`cur
  {
    Progress(c[0].bytesTrans, Consumed(c), CursorOf(c, c[0].cur))
  }

  /** Counts, shares and cursor of a chain all say that the same bytes are gone. */
  ghost predicate IsExact(c: seq<CBuffer>)
    requires c != []
    reads c`msg, c`consumed, c`bytesTrans, c`cur
  {
    Exact(Lens(c), View(c))
  }

  lemma CursorAt(c: seq<CBuffer>, k: nat)
    requires Distinct(c) && k <= |c|
    ensures CursorOf(c, Item(c, k)) == At(k)
  {
  }

  // ---------- the write operation ----------

  /** What sendmsg returned: a count, or a failure with its error number. */
  datatype SendResult = SendResult(bytes: int, errno: nat)

  const EAGAIN: nat := 11
  const EINTR: nat := 4

  predicate Interrupted(result: SendResult) {
    result.bytes < 0 && result.errno == EINTR
  }

  /** How many bytes the results of a script say were taken. */
  function Offered(script: seq<SendResult>): nat {
    if script == [] then 0
    else
      var e := script[|script| - 1];
      Offered(script[..|script| - 1]) + if e.bytes > 0 then e.bytes else 0
  }

  lemma {:induction false} NothingOffered(script: seq<SendResult>)
    requires forall e :: e in script ==> e.bytes <= 0
    ensures Offered(script) == 0
  {
    if script != [] {
      NothingOffered(script[..|script| - 1]);
    }
  }

  lemma LastOffers(script: seq<SendResult>, n: nat)
    requires 0 < n <= |script| && forall i :: 0 <= i < n - 1 ==> script[i].bytes <= 0
    ensures Offered(script[..n]) == if script[n - 1].bytes > 0 then script[n - 1].bytes else 0
  {
    assert script[..n][..n - 1] == script[..n - 1];
    NothingOffered(script[..n - 1]);
  }

  lemma {:induction false} OfferedFurther(script: seq<SendResult>, k: nat, n: nat)
    requires k + n <= |script|
    ensures Offered(script[..k + n]) == Offered(script[..k]) + Offered(script[k..][..n])
  {
    if n > 0 {
      OfferedFurther(script, k, n - 1);
      assert script[..k + n][..k + n - 1] == script[..k + (n - 1)];
      assert script[k..][..n][..n - 1] == script[k..][..n - 1];
    }
  }

  /** How many of the offered bytes moved: never more than there are. */
  function Moved(result: SendResult, offered: nat): nat {
    if result.bytes <= 0 then 0 else Min(result.bytes, offered)
  }

  /** What a chain has yet to transmit. */
  ghost function Remaining(c: seq<CBuffer>): seq<byte>
    reads c`msg, c`bytesTrans
  {
    var flat := Flat(Msgs(c));
    if c != [] && c[0].bytesTrans <= |flat| then flat[c[0].bytesTrans..] else []
  }

  /** A well-formed chain, everything in agreement, every item with bytes behind it of the given length. */
  ghost predicate Ready(c: seq<CBuffer>, own: nat)
    reads c
  {
    && IsChain(c) && Totals(c) && IsExact(c)
    && Uniform(Lens(c), own) && Size(Lens(c)) < 0x8000_0000
    && |c| <= MAX_IOVEC
  }

  lemma CursorIndex(c: seq<CBuffer>) returns (k: nat)
    requires c != [] && IsExact(c)
    ensures k <= |c| && c[0].cur == Item(c, k)
    ensures forall i :: 0 <= i < |c| ==> c[i].consumed <= |c[i].msg|
  {
    k := View(c).cursor.index;
  }

  /** The regions from the cursor on are what the chain has yet to transmit. */
  lemma RegionsAreRemaining(c: seq<CBuffer>, k: nat, vecs: seq<seq<byte>>)
    requires c != [] && IsExact(c) && Distinct(c) && k <= |c| && c[0].cur == Item(c, k)
    requires |vecs| == |c| - k && forall i :: 0 <= i < |vecs| ==> c[k + i].consumed <= |c[k + i].msg| && vecs[i] == c[k + i].msg[c[k + i].consumed..]
    ensures Flat(vecs) == Remaining(c)
  {
    hide Msgs, Share, Flat, Size, Lengths, Consumed;
    CursorAt(c, k);
    FlatSize(Msgs(c));
    RegionsAreSuffix(Msgs(c), c[0].bytesTrans, k, vecs);
  }

  lemma RemainingSize(c: seq<CBuffer>)
    requires c != [] && c[0].bytesTrans <= Size(Lens(c))
    ensures |Remaining(c)| == Size(Lens(c)) - c[0].bytesTrans && |Flat(Msgs(c))| == Size(Lens(c))
    ensures Remaining(c) == Flat(Msgs(c))[c[0].bytesTrans..]
  {
    FlatSize(Msgs(c));
  }

  lemma SuffixStep(flat: seq<byte>, t: nat, n: nat)
    requires t + n <= |flat|
    ensures flat[t..] == flat[t..][..n] + flat[t + n..]
  {
  }

  /** Whether the operation is done, or is still being interrupted when the script ends. */
  datatype WorkOutcome = Worked(done: bool) | StillRunning

  class WriteOp {
    const buf: CBuffer
    var ec: nat
    var bytesTrans: nat

    constructor (buf: CBuffer)
      ensures this.buf == buf
    {
      this.buf := buf;
      ec, bytesTrans := 0, 0;
    }

    /** One region for every item from the cursor on. */
    method GatherRegions(ghost c: seq<CBuffer>) returns (vecs: array<seq<byte>>, count: nat)
      requires Ready(c, |buf.msg|) && buf in c
      ensures fresh(vecs) && count <= vecs.Length == MAX_IOVEC && Flat(vecs[..count]) == Remaining(c)
    {
      hide Lens, Msgs, Uniform, Flat, Remaining, Share, Size, IsExact, Totals, Backward;
      vecs := new seq<byte>[MAX_IOVEC](_ => []);
      count := 0;
      ghost var k := CursorIndex(c);
      var item := buf.head.cur;
      while item != null
        invariant 0 <= count <= |c| - k && item == Item(c, k + count)
        invariant forall i :: 0 <= i < count ==> c[k + i].consumed <= |c[k + i].msg| && vecs[i] == c[k + i].msg[c[k + i].consumed..]
        decreases |c| - k - count
      {
        vecs[count] := item.msg[item.consumed..];
        item := item.next;
        count := count + 1;
      }
      RegionsAreRemaining(c, k, vecs[..count]);
    }

    /** Advance the chain by what was sent. */
    method CountSent(ghost c: seq<CBuffer>, n: nat)
      requires Ready(c, |buf.msg|) && buf in c && n <= |Remaining(c)|
      modifies c`consumed, buf.head`bytesTrans, buf.head`cur
      ensures Ready(c, |buf.msg|) && old(Remaining(c)) == old(Remaining(c))[..n] + Remaining(c)
    {
      hide Lens, Msgs, Size, Flat, Uniform, Share, Walk, PassedAlike, Pointed, Consumed, Linked, CursorOf, Remaining;
      RemainingSize(c);
      UniformPasses(Lens(c), |buf.msg|, n + c[0].bytesTrans);
      AdvanceExactIff(Lens(c), |buf.msg|, View(c), n);
      SuffixStep(Flat(Msgs(c)), c[0].bytesTrans, n);
      buf.AddBytes(c, n);
      RemainingSize(c);
    }

    /**
      Send what remains until the system takes some of it or reports something other than an
      interruption; done is false exactly when the socket was not ready.
     */
    method DoWork(ghost c: seq<CBuffer>, script: seq<SendResult>)
      returns (outcome: WorkOutcome, ghost taken: seq<byte>, used: nat)
      requires Ready(c, |buf.msg|) && buf in c
      modifies `ec, `bytesTrans, c`consumed, buf.head`bytesTrans, buf.head`cur
      ensures Ready(c, |buf.msg|) && old(Remaining(c)) == taken + Remaining(c)
      ensures used <= |script|
      ensures outcome.StillRunning? ==>
                taken == [] && unchanged(c) && used == |script| && forall e :: e in script ==> e.bytes < 0 && e.errno == EINTR
      ensures |taken| == Min(|old(Remaining(c))|, Offered(script[..used]))
      ensures outcome.Worked? ==>
                && used > 0 && (forall i :: 0 <= i < used - 1 ==> script[i].bytes < 0 && script[i].errno == EINTR)
                && !(script[used - 1].bytes < 0 && script[used - 1].errno == EINTR)
                && bytesTrans == |taken|
                && |taken| == (if script[used - 1].bytes > 0 then Min(script[used - 1].bytes, |old(Remaining(c))|) else 0)
                && ec == (if taken != [] then 0 else script[used - 1].errno)
                && outcome.done == (ec != EAGAIN)
    {
      hide Ready, Remaining, Flat, Lens, Msgs;
      taken, used := [], 0;
      var result := SendResult(-1, EINTR);
      var offered := 0;
      while used < |script| && Interrupted(result)
        invariant used <= |script|
        invariant used > 0 ==> result == script[used - 1] && offered == |Remaining(c)|
        invariant used == 0 ==> Interrupted(result)
        invariant forall i :: 0 <= i < used - 1 ==> Interrupted(script[i])
        modifies {}
      {
        var vecs, count := GatherRegions(c);
        offered := |Flat(vecs[..count])|;
        result := script[used];
        used := used + 1;
      }
      if Interrupted(result) {
        NothingOffered(script[..used]);
        return StillRunning, [], used;
      }
      LastOffers(script, used);
      var bytes := Moved(result, offered);
      if bytes == 0 {
        bytesTrans, ec := 0, result.errno;
      } else {
        taken := Remaining(c)[..bytes];
        CountSent(c, bytes);
        bytesTrans, ec := bytes, 0;
      }
      outcome := Worked(ec != EAGAIN);
    }

    /** The operation tried whenever the socket is ready, until it is done. */
    method Finish(ghost c: seq<CBuffer>, script: seq<SendResult>) returns (done: bool, ghost taken: seq<byte>, used: nat)
      requires Ready(c, |buf.msg|) && buf in c
      modifies `ec, `bytesTrans, c`consumed, buf.head`bytesTrans, buf.head`cur
      ensures Ready(c, |buf.msg|) && old(Remaining(c)) == taken + Remaining(c)
      ensures used <= |script| && (done ==> used > 0 && bytesTrans == |taken|) && (!done ==> used == |script| && taken == [])
      ensures |taken| == Min(|old(Remaining(c))|, Offered(script[..used]))
      ensures done && taken != [] ==> ec == 0
      ensures done && taken == [] ==>
                && ec == script[used - 1].errno != EAGAIN && !Interrupted(script[used - 1])
                && (old(Remaining(c)) == [] || script[used - 1].bytes <= 0)
    {
      hide Ready, Remaining, Flat, Lens, Msgs, Offered;
      done, taken, used := false, [], 0;
      NothingOffered(script[..0]);
      while !done
        invariant used <= |script| && Ready(c, |buf.msg|)
        invariant old(Remaining(c)) == taken + Remaining(c)
        invariant |taken| == Min(|old(Remaining(c))|, Offered(script[..used]))
        invariant done ==> used > 0 && bytesTrans == |taken|
        invariant done && taken != [] ==> ec == 0
        invariant done && taken == [] ==>
                    && ec == script[used - 1].errno != EAGAIN && !Interrupted(script[used - 1])
                    && (old(Remaining(c)) == [] || script[used - 1].bytes <= 0)
        invariant !done ==> taken == []
        decreases !done, |script| - used
      {
        var outcome, more, n := DoWork(c, script[used..]);
        OfferedFurther(script, used, n);
        taken, used := taken + more, used + n;
        if outcome.StillRunning? {
          return;
        }
        done := outcome.done;
      }
    }
  }

  /** Whether everything went out, an error stopped it, or the script ended first. */
  datatype WriteOutcome = AllSent | Failed(errno: nat) | Unfinished

  /** A result that is neither progress, nor an interruption, nor a socket not ready. */
  predicate Breaks(e: SendResult) {
    e.bytes <= 0 && !Interrupted(e) && e.errno != 0 && e.errno != EAGAIN
  }

  /**
    A writer that starts another write operation until the whole chain is out, or an error
    comes without any progress.  It goes on through everything else: a script that offers
    enough and in which nothing breaks has everything sent.
   */
  method WriteAll(ghost c: seq<CBuffer>, buf: CBuffer, script: seq<SendResult>)
    returns (outcome: WriteOutcome, ghost wire: seq<byte>, used: nat)
    requires Ready(c, |buf.msg|) && buf in c
    modifies c`consumed, buf.head`bytesTrans, buf.head`cur
    ensures Ready(c, |buf.msg|) && old(Remaining(c)) == wire + Remaining(c)
    ensures used <= |script| && |wire| == Min(|old(Remaining(c))|, Offered(script[..used]))
    ensures outcome.AllSent? ==> wire == old(Remaining(c)) && c[0].bytesTrans == c[0].bytesTotal
    ensures outcome.Failed? && old(Remaining(c)) != [] ==>
              used > 0 && outcome.errno == script[used - 1].errno && Breaks(script[used - 1])
    ensures outcome.Unfinished? ==> used == |script|
    ensures old(Remaining(c)) != [] && (forall e :: e in script ==> !Breaks(e)) && Offered(script) >= |old(Remaining(c))| ==>
              outcome.AllSent?
  {
    hide Remaining, Flat, Lens, Msgs, Exact, View, Uniform, Size, Offered;
    wire, used := [], 0;
    NothingOffered(script[..0]);
    while true
      invariant used <= |script| && Ready(c, |buf.msg|)
      invariant old(Remaining(c)) == wire + Remaining(c)
      invariant |wire| == Min(|old(Remaining(c))|, Offered(script[..used]))
      invariant old(Remaining(c)) != [] ==> Remaining(c) != []
      decreases |script| - used
    {
      var op := new WriteOp(buf);
      var done, taken, n := op.Finish(c, script[used..]);
      OfferedFurther(script, used, n);
      wire, used := wire + taken, used + n;
      if !done {
        assert script[..used] == script;
        return Unfinished, wire, used;
      }
      if op.ec != 0 && op.bytesTrans == 0 {
        return Failed(op.ec), wire, used;
      }
      if buf.head.bytesTrans >= buf.head.bytesTotal {
        NothingRemains(c, |buf.msg|);
        return AllSent, wire, used;
      }
      SomethingRemains(c, |buf.msg|);
    }
  }

  lemma SomethingRemains(c: seq<CBuffer>, own: nat)
    requires Ready(c, own) && c[0].bytesTrans < c[0].bytesTotal
    ensures Remaining(c) != []
  {
    RemainingSize(c);
  }

  lemma NothingRemains(c: seq<CBuffer>, own: nat)
    requires Ready(c, own) && c[0].bytesTrans >= c[0].bytesTotal
    ensures Remaining(c) == [] && c[0].bytesTrans == c[0].bytesTotal
  {
    RemainingSize(c);
  }

  /** A chain in agreement, nothing of it transmitted, holding these messages. */
  ghost predicate Holds(c: seq<CBuffer>, msgs: seq<seq<byte>>)
    reads c
  {
    IsChain(c) && Totals(c) && IsExact(c) && c[0].cur == c[0] && c[0].bytesTrans == 0 && Msgs(c) == msgs
  }

  /** A chain built message by message, each appended to the last. */
  method BuildChain(msgs: seq<seq<byte>>) returns (c: seq<CBuffer>)
    requires msgs != []
    ensures fresh(c) && Holds(c, msgs)
  {
    hide Holds;
    var first := new CBuffer(msgs[0]);
    c := [first];
    AloneHolds(first, msgs[0]);
    assert msgs[..1] == [msgs[0]];
    var i := 1;
    while i < |msgs|
      invariant 1 <= i <= |msgs| && fresh(c) && Holds(c, msgs[..i])
    {
      var buf := new CBuffer(msgs[i]);
      AloneHolds(buf, msgs[i]);
      Extend(c, msgs[..i], buf, msgs[i]);
      c := c + [buf];
      assert msgs[..i + 1] == msgs[..i] + [msgs[i]];
      i := i + 1;
    }
    assert msgs[..i] == msgs;
  }

  method Extend(c: seq<CBuffer>, ghost msgs: seq<seq<byte>>, buf: CBuffer, ghost msg: seq<byte>)
    requires Holds(c, msgs) && Holds([buf], [msg]) && buf !in c
    modifies c`next, buf`prev, c`head, buf`head, c`bytesTotal, c`count, c`end
    ensures Holds(c + [buf], msgs + [msg])
  {
    hide Lens, Size, Linked, IsExact, Totals;
    assert c[|c| - 1] in c && c != [buf];
    var ok := c[|c| - 1].Append(c, [buf], buf);
    assert Msgs(c + [buf]) == Msgs(c) + Msgs([buf]);
  }

  lemma AloneHolds(buf: CBuffer, data: seq<byte>)
    requires buf.Alone(data)
    ensures Holds([buf], [data])
  {
    var c := [buf];
    assert c[0] == buf && c[1..] == [] && Msgs(c) == [data];
    assert Lens(c) == [|data|] && Consumed(c) == [0];
    CursorAt(c, 0);
    NothingShared(Lens(c));
    assert Size([|data|]) == |data|;
    PointedAtFirst([|data|], 0);
  }

  /** The first buffer of what BuildChain made of messages of one length is ready to send them all. */
  lemma EqualLengthsAreReady(c: seq<CBuffer>, msgs: seq<seq<byte>>, len: nat)
    requires Holds(c, msgs) && |msgs| <= MAX_IOVEC && |Flat(msgs)| < 0x8000_0000
    requires forall i :: 0 <= i < |msgs| ==> |msgs[i]| == len
    ensures Ready(c, len) && Remaining(c) == Flat(msgs)
  {
    hide Exact;
    FlatSize(msgs);
  }
}
