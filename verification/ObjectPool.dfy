/**
  The pool of descriptor states: live objects in a list linked both ways, returned ones in a
  list linked forwards, both threaded through the objects themselves.
 */
module ObjectPool {

  // ---------- the lists as values ----------

  /** The live and the returned objects in list order, and every object ever created. */
  datatype Lists<T(==)> = Lists(live: seq<T>, free: seq<T>, created: seq<T>)

  function AfterAlloc<T(==)>(l: Lists<T>, o: T): Lists<T> {
    if l.free != [] && l.free[0] == o then Lists([o] + l.live, l.free[1..], l.created)
    else Lists([o] + l.live, l.free, l.created + [o])
  }

  function Without<T(==)>(s: seq<T>, o: T): seq<T> {
    if s == [] then [] else if s[0] == o then s[1..] else [s[0]] + Without(s[1..], o)
  }

  function AfterFree<T(==)>(l: Lists<T>, o: T): Lists<T> {
    Lists(Without(l.live, o), [o] + l.free, l.created)
  }

  /** Every object created is in one list, in one place. */
  ghost predicate Partitioned<T>(l: Lists<T>) {
    && multiset(l.live) + multiset(l.free) == multiset(l.created)
    && forall o :: o in l.created ==> multiset(l.created)[o] == 1
  }

  /** One call on the pool, and the object it returns or takes back. */
  datatype PoolCall<T> = Allocs(o: T) | Frees(o: T)

  /** An object comes off the free list if there is one, else it is new; only live objects are freed. */
  predicate CallOk<T(==)>(l: Lists<T>, call: PoolCall<T>) {
    match call
    case Allocs(o) => if l.free != [] then o == l.free[0] else o !in l.created
    case Frees(o) => o in l.live
  }

  function AfterCall<T(==)>(l: Lists<T>, call: PoolCall<T>): Lists<T> {
    match call
    case Allocs(o) => AfterAlloc(l, o)
    case Frees(o) => AfterFree(l, o)
  }

  function AfterCalls<T(==)>(l: Lists<T>, calls: seq<PoolCall<T>>): Lists<T> {
    if calls == [] then l
    else AfterCall(AfterCalls(l, calls[..|calls| - 1]), calls[|calls| - 1])
  }

  predicate CallsOk<T(==)>(l: Lists<T>, calls: seq<PoolCall<T>>) {
    forall i :: 0 <= i < |calls| ==> CallOk(AfterCalls(l, calls[..i]), calls[i])
  }

  lemma {:induction false} WithoutOne<T>(s: seq<T>, o: T)
    requires o in s
    ensures multiset(Without(s, o)) == multiset(s) - multiset{o}
  {
    assert s == [s[0]] + s[1..];
    if s[0] != o {
      WithoutOne(s[1..], o);
    }
  }

  lemma {:induction false} WithoutAt<T>(s: seq<T>, k: nat)
    requires k < |s| && forall i, j :: 0 <= i < j < |s| ==> s[i] != s[j]
    ensures Without(s, s[k]) == s[..k] + s[k + 1..]
  {
    if k > 0 {
      assert s[0] != s[k];
      WithoutAt(s[1..], k - 1);
      assert s[1..][..k - 1] == s[1..k] && s[1..][k..] == s[k + 1..];
      assert s[..k] == [s[0]] + s[1..k];
    }
  }

  lemma TakeKeepsPartition<T>(l: Lists<T>, o: T)
    requires Partitioned(l) && l.free != [] && o == l.free[0]
    ensures Partitioned(AfterAlloc(l, o))
  {
    assert l.free == [o] + l.free[1..];
  }

  lemma CreateKeepsPartition<T>(l: Lists<T>, o: T)
    requires Partitioned(l) && l.free == [] && o !in l.created
    ensures Partitioned(AfterAlloc(l, o))
  {
    assert multiset(l.created)[o] == 0;
  }

  lemma FreeKeepsPartition<T>(l: Lists<T>, o: T)
    requires Partitioned(l) && o in l.live
    ensures Partitioned(AfterFree(l, o))
  {
    WithoutOne(l.live, o);
  }

  lemma CallKeepsPartition<T>(l: Lists<T>, call: PoolCall<T>)
    requires Partitioned(l) && CallOk(l, call)
    ensures Partitioned(AfterCall(l, call))
  {
    hide Partitioned, AfterAlloc, AfterFree;
    match call {
      case Allocs(o) =>
        if l.free != [] {
          TakeKeepsPartition(l, o);
        } else {
          CreateKeepsPartition(l, o);
        }
      case Frees(o) => FreeKeepsPartition(l, o);
    }
  }

  lemma {:induction false} AfterCallsPartitioned<T>(calls: seq<PoolCall<T>>)
    requires CallsOk(Lists([], [], []), calls)
    ensures Partitioned(AfterCalls(Lists([], [], []), calls))
  {
    hide CallOk, AfterCall;
    if calls != [] {
      var before := calls[..|calls| - 1];
      forall i | 0 <= i < |before| ensures CallOk(AfterCalls(Lists([], [], []), before[..i]), before[i]) {
        assert before[..i] == calls[..i] && before[i] == calls[i];
      }
      AfterCallsPartitioned(before);
      CallKeepsPartition(AfterCalls(Lists([], [], []), before), calls[|calls| - 1]);
    }
  }

  /**
    After any sequence of calls every object created is in exactly one of the lists, once,
    and the next allocation hands out an object nobody holds.
   */
  lemma CallsKeepPartition<T>(calls: seq<PoolCall<T>>, o: T)
    requires CallsOk(Lists([], [], []), calls)
    ensures var l := AfterCalls(Lists([], [], []), calls);
            && Partitioned(l)
            && (CallOk(l, Allocs(o)) ==> o !in l.live)
            && multiset(l.live + l.free) == multiset(l.created)
            && forall i, j :: 0 <= i < j < |l.live + l.free| ==> (l.live + l.free)[i] != (l.live + l.free)[j]
  {
    AfterCallsPartitioned(calls);
    hide AfterCalls;
    var l := AfterCalls(Lists([], [], []), calls);
    OnceEach(l);
    if CallOk(l, Allocs(o)) {
      NextIsNotLive(l, o);
    }
  }

  lemma TwoCopies<T>(s: seq<T>, i: nat, j: nat)
    requires i < j < |s|
    ensures s[i] == s[j] ==> multiset(s)[s[i]] >= 2
  {
    assert s == s[..j] + s[j..];
    assert s[..j][i] in multiset(s[..j]) && s[j..][0] in multiset(s[j..]);
  }

  lemma OnceEach<T>(l: Lists<T>)
    requires Partitioned(l)
    ensures multiset(l.live + l.free) == multiset(l.created)
    ensures forall i, j :: 0 <= i < j < |l.live + l.free| ==> (l.live + l.free)[i] != (l.live + l.free)[j]
  {
    var s := l.live + l.free;
    forall i, j | 0 <= i < j < |s| ensures s[i] != s[j] {
      TwoCopies(s, i, j);
      assert s[i] in multiset(l.created);
    }
  }

  lemma NextIsNotLive<T>(l: Lists<T>, o: T)
    requires Partitioned(l) && CallOk(l, Allocs(o))
    ensures o !in l.live
  {
    if l.free != [] {
      assert o in multiset(l.free);
      assert multiset(l.created)[o] == multiset(l.live)[o] + multiset(l.free)[o];
    } else {
      assert multiset(l.created)[o] == multiset(l.live)[o];
    }
  }

  // ---------- the lists in place ----------

  class Node {
    var next: Node?
    var prev: Node?

    constructor ()
    {
      next, prev := null, null;
    }
  }

  ghost function Neighbour(s: seq<Node>, k: int): Node? {
    if 0 <= k < |s| then s[k] else null
  }

  ghost predicate Distinct(s: seq<Node>) {
    forall i, j :: 0 <= i < j < |s| ==> s[i] != s[j]
  }

  ghost predicate Forward(s: seq<Node>)
    reads s`next
  {
    forall i {:trigger s[i].next} :: 0 <= i < |s| ==> s[i].next == Neighbour(s, i + 1)
  }

  ghost predicate Backward(s: seq<Node>)
    reads s`prev
  {
    forall i {:trigger s[i].prev} :: 0 <= i < |s| ==> s[i].prev == Neighbour(s, i - 1)
  }

  ghost predicate Apart(s: seq<Node>, r: seq<Node>) {
    forall o :: o in s ==> o !in r
  }

  lemma TakenOut(s: seq<Node>, k: nat)
    requires k < |s| && Distinct(s)
    ensures var rest := Without(s, s[k]); Distinct(rest) && s[k] !in rest && forall o :: o in rest ==> o in s
  {
    WithoutAt(s, k);
  }

  /** A list whose k-th object is skipped by its neighbours is the list without it. */
  lemma SkippedIsLinked(s: seq<Node>, k: nat)
    requires k < |s|
    requires forall i {:trigger s[i].next} :: 0 <= i < |s| && i != k ==> s[i].next == Neighbour(s, if i == k - 1 then k + 1 else i + 1)
    requires forall i {:trigger s[i].prev} :: 0 <= i < |s| && i != k ==> s[i].prev == Neighbour(s, if i == k + 1 then k - 1 else i - 1)
    ensures Forward(s[..k] + s[k + 1..]) && Backward(s[..k] + s[k + 1..])
  {
    var rest := s[..k] + s[k + 1..];
    forall i | 0 <= i < |rest| ensures rest[i].next == Neighbour(rest, i + 1) && rest[i].prev == Neighbour(rest, i - 1) {
      var j := if i < k then i else i + 1;
      assert rest[i] == s[j] && s[j].next == s[j].next && s[j].prev == s[j].prev;
    }
  }

  class Pool {
    var liveList: Node?
    var freeList: Node?
    ghost var lists: Lists<Node>

    /** Both lists are well formed, and together they hold every object created, once. */
    ghost predicate Valid()
      reads this, lists.live, lists.free
    {
      Linked() && Partitioned(lists)
    }

    ghost predicate Linked()
      reads this, lists.live, lists.free
    {
      && Distinct(lists.live) && Distinct(lists.free) && Apart(lists.live, lists.free)
      && liveList == Neighbour(lists.live, 0) && Forward(lists.live) && Backward(lists.live)
      && freeList == Neighbour(lists.free, 0) && Forward(lists.free)
    }

    constructor ()
      ensures Valid() && lists == Lists([], [], [])
    {
      liveList, freeList := null, null;
      lists := Lists([], [], []);
    }

    method First() returns (o: Node?)
      requires Valid()
      ensures o == if lists.live == [] then null else lists.live[0]
    {
      o := liveList;
    }

    method TakeOrCreate() returns (o: Node)
      requires Linked()
      modifies `freeList, `lists
      ensures old(lists.free) == [] ==> fresh(o) && lists == old(lists)
      ensures old(lists.free) != [] ==> o == old(lists.free[0]) && lists == old(lists).(free := old(lists.free[1..]))
      ensures Linked() && o !in lists.live && o !in lists.free
    {
      if freeList != null {
        o := freeList;
        freeList := freeList.next;
        lists := lists.(free := lists.free[1..]);
      } else {
        o := new Node();
      }
    }

    method Alloc() returns (o: Node)
      requires Valid()
      modifies this, lists.live, lists.free
      ensures Valid() && lists == AfterAlloc(old(lists), o)
      ensures lists.live == [o] + old(lists.live)
      ensures CallOk(old(lists), Allocs(o)) && (old(lists.free) == [] ==> fresh(o))
    {
      hide Partitioned;
      ghost var before := lists;
      o := TakeOrCreate();
      CallKeepsPartition(before, Allocs(o));
      PushLive(o, before);
    }

    method PushLive(o: Node, ghost before: Lists<Node>)
      requires Linked() && o !in lists.live && o !in lists.free
      requires var after := AfterAlloc(before, o); after.live == [o] + lists.live && after.free == lists.free
      modifies this, o, lists.live`prev
      ensures Linked() && lists == AfterAlloc(before, o)
    {
      hide AfterAlloc;
      assert forall x :: x in lists.free ==> x !in lists.live;
      o.next := liveList;
      o.prev := null;
      if liveList != null {
        liveList.prev := o;
      }
      liveList := o;
      lists := AfterAlloc(before, o);
    }

    method Free(o: Node)
      requires Valid() && o in lists.live
      modifies this, lists.live, lists.free
      ensures Valid() && lists == AfterFree(old(lists), o)
      ensures lists.free == [o] + old(lists.free) && multiset(lists.live) == multiset(old(lists.live)) - multiset{o}
    {
      hide Backward, Distinct, Without, Partitioned;
      CallKeepsPartition(lists, Frees(o));
      WithoutOne(lists.live, o);
      ghost var k :| 0 <= k < |lists.live| && lists.live[k] == o;
      TakenOut(lists.live, k);
      assert forall i :: 0 <= i < |lists.free| ==> lists.free[i] in lists.free && lists.free[i] !in lists.live;
      Unlink(o, k);
      PushFree(o);
    }

    /** Put an object that was unlinked in front of the returned ones. */
    method PushFree(o: Node)
      requires var rest := Without(lists.live, o);
               && Distinct(rest) && Distinct(lists.free) && Apart(rest, lists.free) && o !in rest && o !in lists.free
               && liveList == Neighbour(rest, 0) && Forward(rest) && Backward(rest)
               && freeList == Neighbour(lists.free, 0) && Forward(lists.free)
      modifies o, `freeList, `lists
      ensures Linked() && lists == AfterFree(old(lists), o)
    {
      hide Without;
      o.next := freeList;
      o.prev := null;
      freeList := o;
      lists := AfterFree(lists, o);
    }

    /** Take an object out of the live list: its neighbours, or the list, skip it. */
    method Unlink(o: Node, ghost k: nat)
      requires Distinct(lists.live) && liveList == Neighbour(lists.live, 0) && Forward(lists.live) && Backward(lists.live)
      requires k < |lists.live| && lists.live[k] == o
      modifies `liveList, lists.live
      ensures var rest := Without(lists.live, o); liveList == Neighbour(rest, 0) && Forward(rest) && Backward(rest)
    {
      hide Without;
      if liveList == o {
        liveList := o.next;
      }
      if o.prev != null {
        o.prev.next := o.next;
      }
      if o.next != null {
        o.next.prev := o.prev;
      }
      WithoutAt(lists.live, k);
      SkippedIsLinked(lists.live, k);
    }

    /** The destructor: both lists destroyed object by object. */
    method Destroy() returns (destroyed: seq<Node>)
      requires Valid()
      ensures destroyed == lists.live + lists.free && multiset(destroyed) == multiset(lists.created)
      ensures forall i, j :: 0 <= i < j < |destroyed| ==> destroyed[i] != destroyed[j]
    {
      var d := DestroyList(liveList, lists.live);
      var e := DestroyList(freeList, lists.free);
      destroyed := d + e;
      OnceEach(lists);
    }

    /** One list destroyed: each object's link is read before the object goes. */
    method DestroyList(list: Node?, ghost s: seq<Node>) returns (destroyed: seq<Node>)
      requires list == Neighbour(s, 0) && Forward(s)
      ensures destroyed == s
    {
      var item := list;
      destroyed := [];
      while item != null
        invariant |destroyed| <= |s| && destroyed == s[..|destroyed|] && item == Neighbour(s, |destroyed|)
        decreases |s| - |destroyed|
      {
        var o := item;
        item := item.next;
        destroyed := destroyed + [o];
      }
    }
  }
}
