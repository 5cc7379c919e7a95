/** A descriptor's operation queues in place: what the reactor does to them under the descriptor's lock. */
module OpSets {
  import opened Proactor

  /** The number of operations at the front of a queue whose I/O is finished. */
  function FinishedInFront(queue: seq<OpId>, doWork: OpId -> bool): (n: nat)
    ensures n <= |queue|
    ensures forall i :: 0 <= i < n ==> doWork(queue[i])
    ensures n < |queue| ==> !doWork(queue[n])
  {
    if queue == [] || !doWork(queue[0]) then 0 else 1 + FinishedInFront(queue[1..], doWork)
  }

  /** The operations finished in the queues from the last down to j. */
  function DoneFrom(ds: OpSet, counts: seq<nat>, j: nat): seq<OpId>
    requires IoCounts(ds, counts) && j <= OP_MAX
    decreases OP_MAX - j
  {
    if j == OP_MAX then [] else DoneFrom(ds, counts, j + 1) + ds.queues[j][..counts[j]]
  }

  lemma DoneFromAll(ds: OpSet, counts: seq<nat>)
    requires IoCounts(ds, counts)
    ensures DoneFrom(ds, counts, 0) == IoDone(ds, counts)
  {
    assert DoneFrom(ds, counts, 4) == [];
    assert DoneFrom(ds, counts, 3) == ds.queues[3][..counts[3]];
    assert DoneFrom(ds, counts, 2) == DoneFrom(ds, counts, 3) + ds.queues[2][..counts[2]];
    assert DoneFrom(ds, counts, 1) == DoneFrom(ds, counts, 2) + ds.queues[1][..counts[1]];
  }

  /** What one perform_io finishes in each queue: nothing unless the events select the type. */
  function Counts(ds: OpSet, selected: seq<bool>, doWork: OpId -> bool): (counts: seq<nat>)
    requires WellFormedSet(ds) && |selected| == OP_MAX
    ensures IoCounts(ds, counts)
    ensures forall j :: 0 <= j < OP_MAX && !selected[j] ==> counts[j] == 0
    ensures forall j :: 0 <= j < OP_MAX && selected[j] ==>
                          && (forall i :: 0 <= i < counts[j] ==> doWork(ds.queues[j][i]))
                          && (counts[j] < |ds.queues[j]| ==> !doWork(ds.queues[j][counts[j]]))
  {
    seq(OP_MAX, j requires 0 <= j < OP_MAX => if selected[j] then FinishedInFront(ds.queues[j], doWork) else 0)
  }

  /** One queue's first n operations done. */
  function TypeDone(ds: OpSet, j: nat, n: nat): OpSet
    requires WellFormedSet(ds) && j < OP_MAX && n <= |ds.queues[j]|
  {
    ds.(queues := ds.queues[j := ds.queues[j][n..]], worked := ds.worked[j := ds.worked[j] + ds.queues[j][..n]])
  }

  /** The types from j on done. */
  function DoneDownTo(ds: OpSet, counts: seq<nat>, j: nat): OpSet
    requires IoCounts(ds, counts)
  {
    ds.(queues := seq(OP_MAX, k requires 0 <= k < OP_MAX => if k < j then ds.queues[k] else ds.queues[k][counts[k]..]),
      worked := seq(OP_MAX, k requires 0 <= k < OP_MAX =>
        if k < j then ds.worked[k] else ds.worked[k] + ds.queues[k][..counts[k]]))
  }

  lemma NothingDone(ds: OpSet, j: nat)
    requires WellFormedSet(ds) && j < OP_MAX
    ensures TypeDone(ds, j, 0) == ds
  {
    assert ds.queues[j][0..] == ds.queues[j] && ds.worked[j] + ds.queues[j][..0] == ds.worked[j];
    assert ds.queues[j := ds.queues[j]] == ds.queues && ds.worked[j := ds.worked[j]] == ds.worked;
  }

  lemma NoTypeDone(ds: OpSet, counts: seq<nat>)
    requires IoCounts(ds, counts)
    ensures DoneDownTo(ds, counts, OP_MAX) == ds && DoneFrom(ds, counts, OP_MAX) == []
  {
    var all := DoneDownTo(ds, counts, OP_MAX);
    assert all.queues == ds.queues && all.worked == ds.worked;
  }

  lemma QueueStillWhole(ds: OpSet, counts: seq<nat>, j: nat)
    requires IoCounts(ds, counts) && j < OP_MAX
    ensures WellFormedSet(DoneDownTo(ds, counts, j + 1)) && DoneDownTo(ds, counts, j + 1).queues[j] == ds.queues[j]
  {
  }

  lemma OneTypeMore(ds: OpSet, counts: seq<nat>, j: nat)
    requires IoCounts(ds, counts) && j < OP_MAX
    ensures WellFormedSet(DoneDownTo(ds, counts, j + 1)) && DoneDownTo(ds, counts, j + 1).queues[j] == ds.queues[j]
    ensures TypeDone(DoneDownTo(ds, counts, j + 1), j, counts[j]) == DoneDownTo(ds, counts, j)
    ensures DoneFrom(ds, counts, j) == DoneFrom(ds, counts, j + 1) + ds.queues[j][..counts[j]]
  {
    var before, after := DoneDownTo(ds, counts, j + 1), DoneDownTo(ds, counts, j);
    var done := TypeDone(before, j, counts[j]);
    assert done.queues == after.queues && done.worked == after.worked;
  }

  /** What left the front of a queue. */
  function Popped(before: seq<OpId>, after: seq<OpId>): seq<OpId> {
    if |after| <= |before| then before[..|before| - |after|] else []
  }

  /** Doing the front operations that finish, of the selected types only, leaves fronts that do not finish. */
  lemma PopsWhatFinishes(ds: OpSet, selected: seq<bool>, doWork: OpId -> bool)
    requires WellFormedSet(ds) && |selected| == OP_MAX
    ensures var counts := Counts(ds, selected, doWork);
            var after, done := AfterIo(ds, counts).queues, IoDone(ds, counts);
            && (forall j :: 0 <= j < OP_MAX && !selected[j] ==> after[j] == ds.queues[j])
            && (forall j :: 0 <= j < OP_MAX && selected[j] ==> after[j] == [] || !doWork(after[j][0]))
            && (forall op :: op in done ==> doWork(op))
            && done == Popped(ds.queues[3], after[3]) + Popped(ds.queues[2], after[2])
                       + Popped(ds.queues[1], after[1]) + Popped(ds.queues[0], after[0])
  {
    hide Counts, FinishedInFront;
    var counts := Counts(ds, selected, doWork);
    assert forall j :: 0 <= j < OP_MAX ==> Popped(ds.queues[j], ds.queues[j][counts[j]..]) == ds.queues[j][..counts[j]];
  }

  lemma CountIs(ds: OpSet, selected: seq<bool>, doWork: OpId -> bool, j: nat)
    requires WellFormedSet(ds) && |selected| == OP_MAX && j < OP_MAX
    ensures Counts(ds, selected, doWork)[j] == if selected[j] then FinishedInFront(ds.queues[j], doWork) else 0
  {
  }

  lemma AllTypesDone(ds: OpSet, counts: seq<nat>)
    requires IoCounts(ds, counts)
    ensures DoneDownTo(ds, counts, 0) == AfterIo(ds, counts)
  {
    var all, after := DoneDownTo(ds, counts, 0), AfterIo(ds, counts);
    assert all.queues == after.queues && all.worked == after.worked;
  }

  class OpSetState {
    const opQue: array<seq<OpId>>
    var shutdown: bool
    var writeArmed: bool
    var inPool: bool
    ghost var started: seq<seq<OpId>>
    ghost var worked: seq<seq<OpId>>
    ghost var dropped: seq<set<OpId>>

    ghost predicate Valid()
      reads this
    {
      opQue.Length == OP_MAX && |started| == OP_MAX && |worked| == OP_MAX && |dropped| == OP_MAX
    }

    ghost function View(): OpSet
      reads this, opQue
    {
      OpSet(opQue[..], shutdown, writeArmed, !inPool, started, worked, dropped)
    }

    constructor ()
      ensures Valid() && fresh(opQue) && View() == NEW_SET
    {
      opQue := new seq<OpId>[OP_MAX] (_ => []);
      shutdown, writeArmed, inPool := false, false, false;
      started, worked, dropped := NO_QUEUES, NO_QUEUES, [{}, {}, {}, {}];
      new;
      assert opQue[..] == NO_QUEUES;
    }

    /** Pop finished operations off the front of one queue. */
    method PopFinished(j: nat, doWork: OpId -> bool) returns (done: seq<OpId>)
      requires opQue.Length == OP_MAX && j < OP_MAX
      modifies opQue
      ensures var n := FinishedInFront(old(opQue[j]), doWork);
              done == old(opQue[j])[..n] && opQue[..] == old(opQue[..])[j := old(opQue[j])[n..]]
    {
      done := [];
      ghost var queue := opQue[j];
      ghost var rest := opQue[..];
      while |opQue[j]| > 0 && doWork(opQue[j][0])
        invariant |done| <= |queue| && done == queue[..|done|] && opQue[j] == queue[|done|..]
        invariant FinishedInFront(queue, doWork) == |done| + FinishedInFront(opQue[j], doWork)
        invariant opQue[..] == rest[j := opQue[j]]
        decreases |opQue[j]|
      {
        done := done + [opQue[j][0]];
        opQue[j] := opQue[j][1..];
      }
    }

    /** One operation type: the front operations that finish, if the events select the type. */
    method PerformType(j: nat, selected: bool, doWork: OpId -> bool) returns (done: seq<OpId>)
      requires Valid() && j < OP_MAX
      modifies this`worked, opQue
      ensures Valid()
      ensures var n := if selected then FinishedInFront(old(opQue[j]), doWork) else 0;
              done == old(opQue[j])[..n] && View() == TypeDone(old(View()), j, n)
    {
      hide FinishedInFront;
      if selected {
        done := PopFinished(j, doWork);
        worked := worked[j := worked[j] + done];
      } else {
        done := [];
        NothingDone(View(), j);
      }
    }

    /**
      The reactor's I/O on a ready descriptor: types from the last to the first, from each
      selected queue the front operations until one is not finished.
     */
    method PerformIo(selected: seq<bool>, doWork: OpId -> bool) returns (done: seq<OpId>)
      requires Valid() && |selected| == OP_MAX
      modifies this`worked, opQue
      ensures Valid()
      ensures done == IoDone(old(View()), Counts(old(View()), selected, doWork))
      ensures View() == AfterIo(old(View()), Counts(old(View()), selected, doWork))
      ensures forall j :: 0 <= j < OP_MAX && !selected[j] ==> opQue[j] == old(opQue[j])
      ensures forall j :: 0 <= j < OP_MAX && selected[j] ==> opQue[j] == [] || !doWork(opQue[j][0])
      ensures forall op :: op in done ==> doWork(op)
      ensures done == Popped(old(opQue[3]), opQue[3]) + Popped(old(opQue[2]), opQue[2])
                      + Popped(old(opQue[1]), opQue[1]) + Popped(old(opQue[0]), opQue[0])
    {
      hide View, FinishedInFront, DoneFrom, IoDone, AfterIo, DoneDownTo, TypeDone, Counts, Popped;
      QueuesAre();
      done := [];
      ghost var before := View();
      ghost var counts := Counts(before, selected, doWork);
      NoTypeDone(before, counts);
      var j := OP_MAX;
      while j > 0
        invariant 0 <= j <= OP_MAX && Valid()
        invariant View() == DoneDownTo(before, counts, j)
        invariant done == DoneFrom(before, counts, j)
      {
        j := j - 1;
        QueueIs(j);
        QueueStillWhole(before, counts, j);
        var finished := PerformType(j, selected[j], doWork);
        done := done + finished;
        CountIs(before, selected, doWork, j);
        OneTypeMore(before, counts, j);
      }
      DoneFromAll(before, counts);
      AllTypesDone(before, counts);
      PopsWhatFinishes(before, selected, doWork);
      QueuesAre();
    }

    lemma QueuesAre()
      requires Valid()
      ensures WellFormedSet(View()) && forall j :: 0 <= j < OP_MAX ==> opQue[j] == View().queues[j]
    {
    }

    lemma QueueIs(j: nat)
      requires Valid() && j < OP_MAX
      ensures opQue[j] == View().queues[j]
    {
    }

    /** Starting an operation: try it at once if nothing is ahead of it, else queue it. */
    method StartOp(ty: nat, op: OpId, speculative: bool, did: bool, ctl: bool) returns (outcome: Outcome)
      requires Valid() && ty < OP_MAX
      modifies this`writeArmed, this`started, this`worked, opQue
      ensures Valid()
      ensures outcome == StartOutcome(old(View()), ty, speculative, did, ctl)
      ensures View() == AfterStart(old(View()), ty, op, outcome)
      ensures var tried := !old(shutdown) && old(opQue[ty]) == [] && speculative && (ty == READ ==> old(opQue[EXCEPT]) == []);
              && (outcome.Worked? <==> tried && did)
              && (outcome.Refused? <==> old(shutdown) || (tried && !did && ty == WRITE && !old(writeArmed) && !ctl))
      ensures opQue[..] == if outcome.Queued? then old(opQue[..])[ty := old(opQue[ty]) + [op]] else old(opQue[..])
      ensures worked == if outcome.Worked? then old(worked)[ty := old(worked[ty]) + [op]] else old(worked)
    {
      if shutdown {
        return Refused;
      }
      if opQue[ty] == [] {
        if speculative && (ty != READ || opQue[EXCEPT] == []) {
          if did {
            started, worked := started[ty := started[ty] + [op]], worked[ty := worked[ty] + [op]];
            return Worked;
          }
          if ty == WRITE && !writeArmed {
            if ctl {
              writeArmed := true;
            } else {
              return Refused;
            }
          }
        } else if ty == WRITE {
          writeArmed := true;
        }
      }
      opQue[ty] := opQue[ty] + [op];
      started := started[ty := started[ty] + [op]];
      return Queued(writeArmed);
    }

    /** Pop everything off one queue. */
    method PopAll(j: nat) returns (ops: seq<OpId>)
      requires opQue.Length == OP_MAX && j < OP_MAX
      modifies opQue
      ensures ops == old(opQue[j]) && opQue[..] == old(opQue[..])[j := []]
    {
      ops := [];
      ghost var queue := opQue[j];
      ghost var rest := opQue[..];
      while |opQue[j]| > 0
        invariant |ops| <= |queue| && ops == queue[..|ops|] && opQue[j] == queue[|ops|..]
        invariant opQue[..] == rest[j := opQue[j]]
        decreases |opQue[j]|
      {
        ops := ops + [opQue[j][0]];
        opQue[j] := opQue[j][1..];
      }
    }

    /** Unlink every queued operation, type by type, front to back. */
    method UnlinkAll() returns (ops: seq<OpId>)
      requires Valid()
      modifies this`dropped, opQue
      ensures Valid() && View() == Emptied(old(View()))
      ensures ops == old(opQue[0]) + old(opQue[1]) + old(opQue[2]) + old(opQue[3])
      ensures multiset(ops) == QueuedOps(old(View()))
    {
      ops := [];
      ghost var before := opQue[..];
      var i := 0;
      while i < OP_MAX
        invariant 0 <= i <= OP_MAX
        invariant ops == Joined(before, i)
        invariant forall k :: 0 <= k < OP_MAX ==> opQue[k] == if k < i then [] else before[k]
        modifies opQue
      {
        var unlinked := PopAll(i);
        ops := ops + unlinked;
        i := i + 1;
      }
      assert ops == Joined(before, 4);
      JoinedFour(before);
      ghost var was := dropped;
      dropped := seq(OP_MAX, j requires 0 <= j < OP_MAX => was[j] + set op | op in before[j]);
      assert opQue[..] == NO_QUEUES;
    }

    /** Deregistration: unlink what is queued and shut the state down, once. */
    method Deregister() returns (ops: seq<OpId>)
      requires Valid()
      modifies this`dropped, this`shutdown, opQue
      ensures Valid()
      ensures old(shutdown) ==> View() == old(View()) && ops == []
      ensures !old(shutdown) ==> View() == Emptied(old(View())).(shutdown := true) && multiset(ops) == QueuedOps(old(View()))
    {
      ops := [];
      if !shutdown {
        ops := UnlinkAll();
        shutdown := true;
      }
    }
  }

  /** The first i queues one after the other. */
  function Joined(queues: seq<seq<OpId>>, i: nat): seq<OpId>
    requires i <= |queues|
  {
    if i == 0 then [] else Joined(queues, i - 1) + queues[i - 1]
  }

  lemma JoinedFour(queues: seq<seq<OpId>>)
    requires |queues| == OP_MAX
    ensures Joined(queues, 4) == queues[0] + queues[1] + queues[2] + queues[3]
  {
    assert Joined(queues, 1) == queues[0];
    assert Joined(queues, 2) == queues[0] + queues[1];
    assert Joined(queues, 3) == queues[0] + queues[1] + queues[2];
  }
}
