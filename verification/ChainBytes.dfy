/**
  A chain of buffers seen as one byte string: what each item has consumed once n bytes of the
  string are gone, and what the chain's own walk over the items makes of the same n.
 */
module ChainBytes {
  import opened Bytes

  const SIZE_T: nat := 0x1_0000_0000_0000_0000

  function Size(lens: seq<nat>): nat {
    if lens == [] then 0 else lens[0] + Size(lens[1..])
  }

  function Flat(msgs: seq<seq<byte>>): seq<byte> {
    if msgs == [] then [] else msgs[0] + Flat(msgs[1..])
  }

  function Lengths(msgs: seq<seq<byte>>): (lens: seq<nat>)
    ensures |lens| == |msgs| && forall i :: 0 <= i < |msgs| ==> lens[i] == |msgs[i]|
  {
    seq(|msgs|, i requires 0 <= i < |msgs| => |msgs[i]|)
  }

  function Zeros(n: nat): (z: seq<nat>)
    ensures |z| == n && forall i :: 0 <= i < n ==> z[i] == 0
  {
    seq(n, _ => 0)
  }

  /** n bytes of the flat string shared out over the items, first items first. */
  function Share(lens: seq<nat>, n: nat): (shares: seq<nat>)
    ensures |shares| == |lens| && forall i :: 0 <= i < |lens| ==> shares[i] <= lens[i]
  {
    if lens == [] then []
    else if lens[0] < n then [lens[0]] + Share(lens[1..], n - lens[0])
    else [n] + Zeros(|lens| - 1)
  }

  /** Unsigned addition. */
  function Plus(a: nat, b: nat): (sum: nat)
    ensures a + b < SIZE_T ==> sum == a + b
  {
    (a + b) % SIZE_T
  }

  /** Unsigned subtraction. */
  function Minus(a: nat, b: nat): (d: nat)
    ensures d < SIZE_T && (b <= a < SIZE_T ==> d == a - b)
  {
    (a - b) % SIZE_T
  }

  /** Where an advance leaves the cursor, if it moves it at all. */
  datatype Cursor = Unmoved | At(index: nat)

  datatype Walked = Walked(consumed: seq<nat>, cursor: Cursor)

  /**
    The walk of set_bytes: an item gone past is charged the length of the buffer the call
    was made on, own, whatever its own length; the remaining count wraps like size_t.
   */
  function Walk(lens: seq<nat>, own: nat, n: nat): (w: Walked)
    ensures |w.consumed| == |lens| && (w.cursor.At? ==> w.cursor.index <= |lens|)
  {
    if lens == [] then Walked([], Unmoved)
    else if lens[0] < n then
      var rest := Walk(lens[1..], own, Minus(n, own));
      Walked([own] + rest.consumed, if rest.cursor.At? then At(rest.cursor.index + 1) else Unmoved)
    else Walked([n] + Zeros(|lens| - 1), At(if n < lens[0] then 0 else 1))
  }

  /** A walk in the middle: what was charged so far, and the walk over the rest. */
  predicate Continues(whole: Walked, done: seq<nat>, rest: Walked) {
    && whole.consumed == done + rest.consumed
    && whole.cursor == if rest.cursor.At? then At(|done| + rest.cursor.index) else Unmoved
  }

  lemma WalkBegins(lens: seq<nat>, own: nat, n: nat)
    ensures Continues(Walk(lens, own, n), [], Walk(lens[0..], own, n))
  {
    assert lens[0..] == lens;
  }

  lemma WalkPasses(lens: seq<nat>, own: nat, i: nat, whole: Walked, done: seq<nat>, n: nat)
    requires |done| == i < |lens| && lens[i] < n && Continues(whole, done, Walk(lens[i..], own, n))
    ensures Continues(whole, done + [own], Walk(lens[i + 1..], own, Minus(n, own)))
  {
    hide Minus;
    assert lens[i..][1..] == lens[i + 1..];
    var rest := Walk(lens[i + 1..], own, Minus(n, own));
    assert Walk(lens[i..], own, n).consumed == [own] + rest.consumed;
    assert done + ([own] + rest.consumed) == (done + [own]) + rest.consumed;
  }

  lemma WalkHalts(lens: seq<nat>, own: nat, i: nat, whole: Walked, done: seq<nat>, n: nat)
    requires |done| == i < |lens| && lens[i] >= n && Continues(whole, done, Walk(lens[i..], own, n))
    ensures |whole.consumed| == |lens| && whole.cursor == At(if n < lens[i] then i else i + 1)
    ensures forall k :: 0 <= k < |lens| ==> whole.consumed[k] == if k < i then done[k] else if k == i then n else 0
  {
  }

  lemma WalkEnds(own: nat, whole: Walked, done: seq<nat>, n: nat)
    requires Continues(whole, done, Walk([], own, n))
    ensures whole == Walked(done, Unmoved)
  {
    assert done + [] == done;
  }

  /** Every item an advance by n goes past is as long as the buffer the call is made on. */
  predicate PassedAlike(lens: seq<nat>, own: nat, n: nat) {
    forall i :: 0 <= i < |lens| && Size(lens[..i + 1]) < n ==> lens[i] == own
  }

  /** Every item with bytes behind it is as long as the buffer the calls are made on. */
  predicate Uniform(lens: seq<nat>, own: nat) {
    forall i :: 0 <= i < |lens| && Size(lens[..i + 1]) < Size(lens) ==> lens[i] == own
  }

  lemma {:induction false} SizeOfConcat(a: seq<nat>, b: seq<nat>)
    ensures Size(a + b) == Size(a) + Size(b)
  {
    if a == [] {
      assert a + b == b;
    } else {
      assert (a + b)[1..] == a[1..] + b;
      SizeOfConcat(a[1..], b);
    }
  }

  lemma {:induction false} FlatOfConcat(a: seq<seq<byte>>, b: seq<seq<byte>>)
    ensures Flat(a + b) == Flat(a) + Flat(b)
  {
    if a == [] {
      assert a + b == b;
    } else {
      assert (a + b)[1..] == a[1..] + b;
      FlatOfConcat(a[1..], b);
    }
  }

  lemma {:induction false} FlatSize(msgs: seq<seq<byte>>)
    ensures |Flat(msgs)| == Size(Lengths(msgs))
  {
    if msgs != [] {
      assert Lengths(msgs)[1..] == Lengths(msgs[1..]);
      FlatSize(msgs[1..]);
    }
  }

  lemma TailPrefix(lens: seq<nat>, i: nat)
    requires i < |lens|
    ensures Size(lens[..i + 1]) == lens[0] + Size(lens[1..][..i])
  {
    assert lens[..i + 1][1..] == lens[1..][..i];
  }

  lemma PassedAlikeTail(lens: seq<nat>, own: nat, n: nat)
    requires lens != []
    ensures PassedAlike(lens, own, n) <==> lens[0] < n ==> lens[0] == own && PassedAlike(lens[1..], own, n - lens[0])
  {
    var rest := lens[1..];
    forall i | 0 <= i < |lens| ensures Size(lens[..i + 1]) == lens[0] + Size(rest[..i]) {
      TailPrefix(lens, i);
    }
    if lens[0] < n && lens[0] == own && PassedAlike(rest, own, n - lens[0]) {
      forall i | 0 <= i < |lens| && Size(lens[..i + 1]) < n ensures lens[i] == own {
        if i > 0 {
          assert lens[i] == rest[i - 1] && Size(rest[..(i - 1) + 1]) < n - lens[0];
        }
      }
    }
    if lens[0] < n && PassedAlike(lens, own, n) {
      assert Size(lens[..0 + 1]) == lens[0];
      forall i | 0 <= i < |rest| && Size(rest[..i + 1]) < n - lens[0] ensures rest[i] == own {
        assert rest[i] == lens[i + 1] && Size(lens[..(i + 1) + 1]) < n;
      }
    }
  }

  lemma SameHeadAndTail(a: nat, x: seq<nat>, b: nat, y: seq<nat>)
    ensures [a] + x == [b] + y <==> a == b && x == y
  {
    assert ([a] + x)[0] == a && ([b] + y)[0] == b && ([a] + x)[1..] == x && ([b] + y)[1..] == y;
  }

  lemma WalkOfNothing(own: nat, n: nat)
    ensures Walk([], own, n).consumed == Share([], n) && PassedAlike([], own, n)
  {
  }

  /** One item of the walk beside its share: gone past, or reached. */
  lemma WalkAndShareStep(lens: seq<nat>, own: nat, n: nat)
    requires lens != []
    ensures lens[0] < n ==> Walk(lens, own, n).consumed == [own] + Walk(lens[1..], own, Minus(n, own)).consumed
    ensures lens[0] < n ==> Share(lens, n) == [lens[0]] + Share(lens[1..], n - lens[0])
    ensures lens[0] >= n ==> Walk(lens, own, n).consumed == Share(lens, n)
  {
    hide Minus, Zeros;
  }

  /** The walk charges every item its share exactly when every item it goes past has the receiver's length. */
  lemma {:induction false} WalkSharesIff(lens: seq<nat>, own: nat, n: nat)
    requires n < SIZE_T
    ensures Walk(lens, own, n).consumed == Share(lens, n) <==> PassedAlike(lens, own, n)
  {
    hide PassedAlike, Minus, Walk, Share;
    if lens == [] {
      WalkOfNothing(own, n);
    } else {
      PassedAlikeTail(lens, own, n);
      WalkAndShareStep(lens, own, n);
      if lens[0] < n {
        SameHeadAndTail(own, Walk(lens[1..], own, Minus(n, own)).consumed, lens[0], Share(lens[1..], n - lens[0]));
        if lens[0] == own {
          WalkSharesIff(lens[1..], own, n - own);
        }
      }
    }
  }

  /** It is exact for every count up to the whole chain exactly when the chain is uniform. */
  lemma AlwaysSharesIffUniform(lens: seq<nat>, own: nat)
    requires Size(lens) < SIZE_T
    ensures (forall n :: 0 <= n <= Size(lens) ==> Walk(lens, own, n).consumed == Share(lens, n)) <==> Uniform(lens, own)
  {
    forall n | Uniform(lens, own) && 0 <= n <= Size(lens) ensures Walk(lens, own, n).consumed == Share(lens, n) {
      WalkSharesIff(lens, own, n);
    }
    WalkSharesIff(lens, own, Size(lens));
  }

  /** Lengths 2, 1, 5 and four bytes sent: the walk charges the second item two bytes and hands out the third afresh. */
  lemma UnequalLengthsGoWrong()
    ensures Share([2, 1, 5], 4) == [2, 1, 1]
    ensures Walk([2, 1, 5], 2, 4) == Walked([2, 2, 0], At(2))
  {
  }

  /** An index with nothing left in front of it, and nothing taken behind it. */
  predicate Pointed(lens: seq<nat>, n: nat, k: nat) {
    k <= |lens| && Size(lens[..k]) <= n && n <= Size(lens[..if k < |lens| then k + 1 else k])
  }

  lemma PointedTail(lens: seq<nat>, n: nat, k: nat)
    requires lens != [] && lens[0] <= n
    ensures Pointed(lens, n, k + 1) <==> Pointed(lens[1..], n - lens[0], k)
  {
    if k < |lens| {
      TailPrefix(lens, k);
    }
    if k + 1 < |lens| {
      TailPrefix(lens, k + 1);
    }
  }

  /** A walk within the chain stops at such an index. */
  lemma {:induction false} WalkStops(lens: seq<nat>, own: nat, n: nat)
    requires n < SIZE_T && lens != [] && n <= Size(lens) && PassedAlike(lens, own, n)
    ensures var w := Walk(lens, own, n); w.cursor.At? && Pointed(lens, n, w.cursor.index)
  {
    PassedAlikeTail(lens, own, n);
    hide PassedAlike, Minus;
    if lens[0] < n {
      assert lens[1..] != [];
      WalkStops(lens[1..], own, n - own);
      PointedTail(lens, n, Walk(lens[1..], own, n - own).cursor.index);
    } else {
      assert lens[..1][1..] == [];
      if |lens| > 1 {
        TailPrefix(lens, 1);
      }
    }
  }

  /** It never stays on an item it has filled. */
  lemma {:induction false} WalkLeavesFilled(lens: seq<nat>, own: nat, n: nat)
    requires n < SIZE_T && lens != [] && n <= Size(lens) && PassedAlike(lens, own, n)
    ensures var w := Walk(lens, own, n);
            w.cursor.At? && (w.cursor.index < |lens| && lens[w.cursor.index] > 0 ==> n < Size(lens[..w.cursor.index + 1]))
  {
    WalkStops(lens, own, n);
    PassedAlikeTail(lens, own, n);
    hide PassedAlike, Minus;
    if lens[0] < n {
      WalkLeavesFilled(lens[1..], own, n - own);
      var k := Walk(lens[1..], own, n - own).cursor.index;
      if k < |lens[1..]| {
        TailPrefix(lens, k + 1);
      }
    } else {
      assert lens[..1][1..] == [];
      if |lens| > 1 {
        TailPrefix(lens, 1);
        assert Size(lens[1..][..1]) == lens[1] + Size(lens[1..][..1][1..]);
      }
    }
  }

  // ---------- what is gathered ----------

  /** What the items still hold past what each has consumed. */
  function Rest(msgs: seq<seq<byte>>, consumed: seq<nat>): seq<byte>
    requires |consumed| == |msgs| && forall i :: 0 <= i < |msgs| ==> consumed[i] <= |msgs[i]|
  {
    if msgs == [] then [] else msgs[0][consumed[0]..] + Rest(msgs[1..], consumed[1..])
  }

  lemma {:induction false} NothingConsumed(msgs: seq<seq<byte>>)
    ensures Rest(msgs, Zeros(|msgs|)) == Flat(msgs)
  {
    if msgs != [] {
      assert Zeros(|msgs|)[1..] == Zeros(|msgs| - 1);
      NothingConsumed(msgs[1..]);
    }
  }

  lemma SuffixOfConcat(a: seq<byte>, b: seq<byte>, n: nat)
    requires n <= |a| + |b|
    ensures (a + b)[n..] == if n <= |a| then a[n..] + b else b[n - |a|..]
  {
  }

  /** With n bytes shared out, the items hold the flat string from n on. */
  lemma {:induction false} RestIsSuffix(msgs: seq<seq<byte>>, n: nat)
    requires n <= |Flat(msgs)|
    ensures Rest(msgs, Share(Lengths(msgs), n)) == Flat(msgs)[n..]
  {
    hide Lengths, Zeros;
    if msgs != [] {
      var lens := Lengths(msgs);
      assert lens[1..] == Lengths(msgs[1..]);
      SuffixOfConcat(msgs[0], Flat(msgs[1..]), n);
      if lens[0] < n {
        assert Share(lens, n)[1..] == Share(lens[1..], n - lens[0]);
        RestIsSuffix(msgs[1..], n - lens[0]);
      } else {
        assert Share(lens, n)[1..] == Zeros(|lens| - 1);
        NothingConsumed(msgs[1..]);
      }
    }
  }

  /** So do the items from a cursor on that has nothing left in front of it. */
  lemma {:induction false} GatheredIsSuffix(msgs: seq<seq<byte>>, k: nat, n: nat)
    requires k <= |msgs| && Size(Lengths(msgs)[..k]) <= n <= |Flat(msgs)|
    ensures Rest(msgs[k..], Share(Lengths(msgs), n)[k..]) == Flat(msgs)[n..]
  {
    hide Rest, Lengths, Zeros, Share;
    var lens := Lengths(msgs);
    if k == 0 {
      assert msgs[0..] == msgs && Share(lens, n)[0..] == Share(lens, n);
      RestIsSuffix(msgs, n);
    } else {
      TailPrefix(lens, k - 1);
      assert lens[1..] == Lengths(msgs[1..]);
      ShareHead(lens, n);
      SuffixOfConcat(msgs[0], Flat(msgs[1..]), n);
      GatheredIsSuffix(msgs[1..], k - 1, n - lens[0]);
      assert Share(lens, n)[k..] == Share(lens[1..], n - lens[0])[k - 1..];
      assert msgs[k..] == msgs[1..][k - 1..];
    }
  }

  lemma NothingShared(lens: seq<nat>)
    ensures Share(lens, 0) == Zeros(|lens|)
  {
  }

  lemma {:induction false} ShareOfConcat(a: seq<nat>, b: seq<nat>, n: nat)
    requires n <= Size(a)
    ensures Share(a + b, n) == Share(a, n) + Zeros(|b|)
  {
    if a == [] {
      assert a + b == b;
      NothingShared(b);
    } else {
      assert (a + b)[1..] == a[1..] + b;
      if a[0] < n {
        ShareOfConcat(a[1..], b, n - a[0]);
      }
    }
  }

  lemma {:induction false} FlatIsRest(vecs: seq<seq<byte>>, msgs: seq<seq<byte>>, consumed: seq<nat>)
    requires |vecs| == |msgs| == |consumed|
    requires forall i :: 0 <= i < |msgs| ==> consumed[i] <= |msgs[i]| && vecs[i] == msgs[i][consumed[i]..]
    ensures Flat(vecs) == Rest(msgs, consumed)
  {
    if msgs != [] {
      FlatIsRest(vecs[1..], msgs[1..], consumed[1..]);
    }
  }

  /** The regions past what each item has consumed, from such an index on, are the flat string's suffix. */
  lemma RegionsAreSuffix(msgs: seq<seq<byte>>, n: nat, k: nat, vecs: seq<seq<byte>>)
    requires k <= |msgs| && Size(Lengths(msgs)[..k]) <= n <= |Flat(msgs)| && |vecs| == |msgs| - k
    requires var shares := Share(Lengths(msgs), n); forall i :: 0 <= i < |vecs| ==> vecs[i] == msgs[k + i][shares[k + i]..]
    ensures Flat(vecs) == Flat(msgs)[n..]
  {
    hide Flat, Share, Size, Lengths, Rest;
    FlatIsRest(vecs, msgs[k..], Share(Lengths(msgs), n)[k..]);
    GatheredIsSuffix(msgs, k, n);
  }

  // ---------- progress through a chain ----------

  datatype Progress = Progress(trans: nat, consumed: seq<nat>, cursor: Cursor)

  function Min(a: nat, b: nat): nat {
    if a < b then a else b
  }

  /** Counts, shares and cursor all say that the same bytes are gone. */
  predicate Exact(lens: seq<nat>, p: Progress) {
    && p.trans <= Size(lens)
    && p.consumed == Share(lens, p.trans)
    && p.cursor.At?
    && Pointed(lens, p.trans, p.cursor.index)
  }

  /** An advance by n: the count moves, never past the total, and the items are walked again from the first. */
  function Advance(lens: seq<nat>, own: nat, p: Progress, n: nat): Progress {
    var trans := Min(Plus(p.trans, n), Size(lens));
    var w := Walk(lens, own, trans);
    Progress(trans, w.consumed, if w.cursor.At? then w.cursor else p.cursor)
  }

  /** An advance keeps everything in agreement exactly when the items it goes past have the receiver's length. */
  lemma AdvanceExactIff(lens: seq<nat>, own: nat, p: Progress, n: nat)
    requires lens != [] && Size(lens) < SIZE_T && p.trans + n < SIZE_T
    ensures Exact(lens, Advance(lens, own, p, n)) <==> PassedAlike(lens, own, Min(p.trans + n, Size(lens)))
    ensures Advance(lens, own, p, n).trans == Min(p.trans + n, Size(lens))
  {
    hide Plus, Walk, Share, Size, PassedAlike, Pointed;
    var trans := Min(p.trans + n, Size(lens));
    WalkSharesIff(lens, own, trans);
    if PassedAlike(lens, own, trans) {
      WalkStops(lens, own, trans);
    }
  }

  lemma UniformPasses(lens: seq<nat>, own: nat, n: nat)
    requires Uniform(lens, own) && n <= Size(lens)
    ensures PassedAlike(lens, own, n)
  {
  }

  /** Two advances are one by the sum, whatever the lengths; on a uniform chain the cursor agrees too. */
  lemma AdvanceTwice(lens: seq<nat>, own: nat, p: Progress, a: nat, b: nat)
    requires lens != [] && Size(lens) < SIZE_T && p.trans + a + b < SIZE_T
    ensures var two, one := Advance(lens, own, Advance(lens, own, p, a), b), Advance(lens, own, p, a + b);
            two.trans == one.trans && two.consumed == one.consumed && (Uniform(lens, own) ==> two == one)
  {
    hide Plus, Walk, Size, PassedAlike, Pointed, Uniform;
    var trans := Min(p.trans + a + b, Size(lens));
    if Uniform(lens, own) {
      UniformPasses(lens, own, trans);
      WalkStops(lens, own, trans);
    }
  }

  lemma {:induction false} ShareBeyond(a: seq<nat>, b: seq<nat>, n: nat)
    requires Size(a) <= n
    ensures Share(a + b, n) == Share(a, Size(a)) + Share(b, n - Size(a))
  {
    hide Zeros, Share;
    if a == [] {
      assert a + b == b;
      NothingShared(a);
    } else {
      assert (a + b)[1..] == a[1..] + b;
      ShareBeyond(a[1..], b, n - a[0]);
      ShareHead(a + b, n);
      ShareHead(a, Size(a));
    }
  }

  /** A share that covers the first item is that item and the share of the others. */
  lemma ShareHead(lens: seq<nat>, n: nat)
    requires lens != [] && lens[0] <= n
    ensures Share(lens, n) == [lens[0]] + Share(lens[1..], n - lens[0])
  {
    NothingShared(lens[1..]);
  }

  /** Cutting at the cursor splits the shares: all of the first part, and what the cursor's item has of the second. */
  lemma SharesSplit(lens: seq<nat>, n: nat, k: nat)
    requires k < |lens| && Pointed(lens, n, k)
    ensures var before := Size(lens[..k]);
            && Share(lens, n) == Share(lens[..k], before) + Share(lens[k..], n - before)
            && Share(lens, n)[k] == n - before <= Size(lens[k..])
  {
    hide Share, Size;
    assert lens == lens[..k] + lens[k..];
    ShareBeyond(lens[..k], lens[k..], n);
    assert lens[..k + 1] == lens[..k] + [lens[k]];
    SizeOfConcat(lens[..k], [lens[k]]);
    FirstShare(lens[k..], n - Size(lens[..k]));
  }

  lemma FirstShare(lens: seq<nat>, n: nat)
    requires lens != [] && n <= Size([lens[0]])
    ensures Share(lens, n)[0] == n && n <= Size(lens)
  {
  }

  lemma PointedInFront(a: seq<nat>, b: seq<nat>, n: nat, k: nat)
    requires Pointed(a, n, k)
    ensures k < |a| ==> Pointed(a + b, n, k)
    ensures k == |a| ==> (Pointed(a + b, n, |a + b|) <==> Size(b) == 0)
  {
    hide Size;
    SizeOfConcat(a, b);
    if k < |a| {
      assert (a + b)[..k] == a[..k] && (a + b)[..k + 1] == a[..k + 1];
    } else {
      assert (a + b)[..|a + b|] == a + b && a[..k] == a;
    }
  }

  /** A chain appended behind one that is not used up, or an empty one, leaves the progress exact; else the cursor is lost. */
  lemma AppendExactIff(a: seq<nat>, b: seq<nat>, p: Progress)
    requires Exact(a, p) && a != [] && b != []
    ensures var k := p.cursor.index;
            var joined := Progress(p.trans, p.consumed + Zeros(|b|), At(if k < |a| then k else |a + b|));
            Exact(a + b, joined) <==> k < |a| || Size(b) == 0
  {
    PointedWithin(a, p.trans, p.cursor.index);
    hide Share, Zeros, Size, Pointed;
    SizeOfConcat(a, b);
    ShareOfConcat(a, b, p.trans);
    PointedInFront(a, b, p.trans, p.cursor.index);
  }

  lemma PointedWithin(lens: seq<nat>, n: nat, k: nat)
    ensures Pointed(lens, n, k) ==> k <= |lens|
  {
  }

  /** A buffer of three bytes sent whole, then two bytes appended: the cursor stays past the end and never reaches them. */
  lemma AppendAfterEndGoesWrong()
    ensures var sent := Advance([3], 3, Progress(0, [0], At(0)), 3);
            sent == Progress(3, [3], At(1)) && Exact([3], sent)
    ensures !Exact([3, 2], Progress(3, [3, 0], At(2)))
    ensures Exact([3, 2], Progress(3, [3, 0], At(1)))
  {
    var one: seq<nat>, two: seq<nat> := [3], [3, 2];
    assert one[1..] == [] && two[1..] == [2];
    assert Size(one) == 3 && Size(two[1..]) == 2 && Size(two) == 5;
    assert Zeros(0) == [] && Zeros(1) == [0];
    assert Share(two, 3) == [3, 0];
    assert one[..1] == one && two[..1] == one && two[..2] == two;
  }
}
