/**
 The sender's table of acknowledgement waiters.

 A waiter is one registration: a one-shot channel for one transfer id.  `pending` is the
 mutex-protected map, `issued` remembers for which transfer every waiter was created, and
 `resolved` lists what every channel received, in order.
*/
module Coordinator {
  import opened Wrappers

  type TransferId = nat
  type WaiterId = nat

  datatype Outcome =
    | Acked
    | Failed(message: string)
    | Closed                     // the channel was dropped unanswered

  datatype Resolution = Resolution(waiter: WaiterId, id: TransferId, outcome: Outcome)

  datatype Ack = Ack(id: TransferId, ok: bool, error: Option<string>)

  const CANCELLED := "transfer cancelled"
  const RECEIVER_FAILED := "receiver reported failure"

  datatype Table = Table(
    pending: map<TransferId, WaiterId>,
    issued: map<WaiterId, TransferId>,
    resolved: seq<Resolution>)

  const EMPTY_TABLE := Table(map[], map[], [])

  /** Registering again for the same transfer drops the previous waiter's channel. */
  function Register(table: Table, id: TransferId, w: WaiterId): Table
    requires w !in table.issued
  {
    Table(
      table.pending[id := w],
      table.issued[w := id],
      if id in table.pending then table.resolved + [Resolution(table.pending[id], id, Closed)] else table.resolved)
  }

  function Complete(table: Table, id: TransferId, outcome: Outcome): Table {
    if id in table.pending then
      Table(table.pending - {id}, table.issued, table.resolved + [Resolution(table.pending[id], id, outcome)])
    else
      table
  }

  function OutcomeOf(ack: Ack): Outcome {
    if ack.ok then Acked else Failed(if ack.error.Some? then ack.error.value else RECEIVER_FAILED)
  }

  /** The process dies: nobody is pending any more; what was resolved stays in the history. */
  function Forget(table: Table): Table {
    table.(pending := map[])
  }

  // ---------------------------------------------------------------- invariants

  ghost predicate Answered(table: Table, w: WaiterId) {
    exists r :: r in table.resolved && r.waiter == w
  }

  /** No waiter is answered twice, and a pending waiter has not been answered. */
  ghost predicate AtMostOnce(table: Table) {
    && (forall i, j :: 0 <= i < j < |table.resolved| ==> table.resolved[i].waiter != table.resolved[j].waiter)
    && (forall r :: r in table.resolved && r.id in table.pending ==> table.pending[r.id] != r.waiter)
    && (forall r :: r in table.resolved ==> r.waiter in table.issued && table.issued[r.waiter] == r.id)
    && (forall id :: id in table.pending ==> table.pending[id] in table.issued && table.issued[table.pending[id]] == id)
  }

  /** Every waiter ever registered is still pending or has been answered: none is lost. */
  ghost predicate NoneLost(table: Table) {
    forall w :: w in table.issued ==>
      Answered(table, w) || (table.issued[w] in table.pending && table.pending[table.issued[w]] == w)
  }

  lemma RegisterKeeps(table: Table, id: TransferId, w: WaiterId)
    requires AtMostOnce(table) && w !in table.issued
    ensures AtMostOnce(Register(table, id, w))
    ensures NoneLost(table) ==> NoneLost(Register(table, id, w))
  {
    var next := Register(table, id, w);
    if NoneLost(table) {
      forall v | v in next.issued
        ensures Answered(next, v) || (next.issued[v] in next.pending && next.pending[next.issued[v]] == v)
      {
        AnswersStay(table, next, v);
        if v in table.issued && id in table.pending && table.pending[id] == v {
          assert next.resolved[|table.resolved|] in next.resolved;
        }
      }
    }
  }

  lemma CompleteKeeps(table: Table, id: TransferId, outcome: Outcome)
    requires AtMostOnce(table)
    ensures AtMostOnce(Complete(table, id, outcome))
    ensures NoneLost(table) ==> NoneLost(Complete(table, id, outcome))
  {
    var next := Complete(table, id, outcome);
    if NoneLost(table) {
      forall v | v in next.issued
        ensures Answered(next, v) || (next.issued[v] in next.pending && next.pending[next.issued[v]] == v)
      {
        AnswersStay(table, next, v);
        if id in table.pending && table.pending[id] == v {
          assert next.resolved[|table.resolved|] in next.resolved;
        }
      }
    }
  }

  lemma AnswersStay(table: Table, next: Table, w: WaiterId)
    requires table.resolved <= next.resolved
    ensures Answered(table, w) ==> Answered(next, w)
  {
    if Answered(table, w) {
      var r :| r in table.resolved && r.waiter == w;
      assert r in next.resolved;
    }
  }

  // ---------------------------------------------------------------- what a waiter is told

  datatype Op = Registering(id: TransferId, waiter: WaiterId) | Completing(id: TransferId, outcome: Outcome)

  predicate CanDo(table: Table, op: Op) {
    op.Registering? ==> op.waiter !in table.issued
  }

  function Do(table: Table, op: Op): Table
    requires CanDo(table, op)
  {
    match op
    case Registering(id, w) => Register(table, id, w)
    case Completing(id, outcome) => Complete(table, id, outcome)
  }

  predicate CanDoAll(table: Table, ops: seq<Op>)
    decreases |ops|
  {
    ops == [] || (CanDo(table, ops[0]) && CanDoAll(Do(table, ops[0]), ops[1..]))
  }

  function DoAll(table: Table, ops: seq<Op>): Table
    requires CanDoAll(table, ops)
    decreases |ops|
  {
    if ops == [] then table else DoAll(Do(table, ops[0]), ops[1..])
  }

  /** The first operation that concerns the transfer: its outcome, or a closed channel when another waiter
      takes the place. */
  function FirstAnswer(ops: seq<Op>, id: TransferId): Option<Outcome> {
    if ops == [] then None
    else if ops[0].id != id then FirstAnswer(ops[1..], id)
    else if ops[0].Registering? then Some(Closed)
    else Some(ops[0].outcome)
  }

  lemma {:induction false} AnswersGrow(table: Table, ops: seq<Op>)
    requires CanDoAll(table, ops)
    ensures table.resolved <= DoAll(table, ops).resolved
    decreases |ops|
  {
    if ops != [] {
      AnswersGrow(Do(table, ops[0]), ops[1..]);
    }
  }

  lemma DoKeeps(table: Table, op: Op)
    requires AtMostOnce(table) && CanDo(table, op)
    ensures AtMostOnce(Do(table, op))
  {
    match op {
      case Registering(id, w) => RegisterKeeps(table, id, w);
      case Completing(id, outcome) => CompleteKeeps(table, id, outcome);
    }
  }

  /** Whatever is registered and completed for this and other transfers: a registered waiter is told the
      first thing that happens to its transfer, and nothing while nothing does. */
  lemma {:induction false} WaiterIsToldTheFirst(table: Table, id: TransferId, w: WaiterId, ops: seq<Op>)
    requires AtMostOnce(table) && id in table.pending && table.pending[id] == w && CanDoAll(table, ops)
    ensures match FirstAnswer(ops, id)
            case Some(outcome) => Resolution(w, id, outcome) in DoAll(table, ops).resolved
            case None =>
              var end := DoAll(table, ops); id in end.pending && end.pending[id] == w && !Answered(end, w)
    decreases |ops|
  {
    if ops != [] {
      var next := Do(table, ops[0]);
      DoKeeps(table, ops[0]);
      if ops[0].id == id {
        AnswersGrow(next, ops[1..]);
        assert next.resolved[|table.resolved|] in DoAll(table, ops).resolved;
      } else {
        WaiterIsToldTheFirst(next, id, w, ops[1..]);
      }
    }
  }

  // ---------------------------------------------------------------- the coordinator object

  class SendCoordinator {
    var pending: map<TransferId, WaiterId>
    ghost var issued: map<WaiterId, TransferId>
    var resolved: seq<Resolution>
    var nextWaiter: WaiterId

    ghost function View(): Table
      reads this
    {
      Table(pending, issued, resolved)
    }

    ghost predicate Valid()
      reads this
    {
      AtMostOnce(View()) && NoneLost(View()) && forall w :: w in issued ==> w < nextWaiter
    }

    constructor ()
      ensures Valid() && View() == EMPTY_TABLE
    {
      pending, issued, resolved, nextWaiter := map[], map[], [], 0;
    }

    method RegisterWaiter(id: TransferId) returns (w: WaiterId)
      requires Valid()
      modifies this
      ensures Valid()
      ensures w !in old(issued) && View() == Register(old(View()), id, w)
      ensures pending == old(pending)[id := w] && !Answered(View(), w)
      ensures resolved == old(resolved) + if id in old(pending) then [Resolution(old(pending)[id], id, Closed)] else []
    {
      w := nextWaiter;
      nextWaiter := nextWaiter + 1;
      RegisterKeeps(View(), id, w);
      if id in pending {
        resolved := resolved + [Resolution(pending[id], id, Closed)];
      }
      pending := pending[id := w];
      issued := issued[w := id];
    }

    method CompleteWaiter(id: TransferId, outcome: Outcome)
      requires Valid()
      modifies this
      ensures Valid() && View() == Complete(old(View()), id, outcome)
      ensures pending == old(pending) - {id}
      ensures resolved == old(resolved) + if id in old(pending) then [Resolution(old(pending)[id], id, outcome)] else []
      ensures nextWaiter == old(nextWaiter)
    {
      CompleteKeeps(View(), id, outcome);
      if id in pending {
        var w := pending[id];
        pending := pending - {id};
        resolved := resolved + [Resolution(w, id, outcome)];
      }
    }

    method CompleteAck(ack: Ack)
      requires Valid()
      modifies this
      ensures Valid() && View() == Complete(old(View()), ack.id, OutcomeOf(ack))
      ensures ack.id in old(pending) ==>
                && |resolved| == |old(resolved)| + 1
                && var answer := resolved[|old(resolved)|];
                   && answer.waiter == old(pending)[ack.id] && answer.id == ack.id
                   && (ack.ok <==> answer.outcome == Acked)
                   && (!ack.ok && ack.error.Some? ==> answer.outcome == Failed(ack.error.value))
                   && (!ack.ok && ack.error.None? ==> answer.outcome == Failed("receiver reported failure"))
    {
      if ack.ok {
        CompleteWaiter(ack.id, Acked);
      } else if ack.error.Some? {
        CompleteWaiter(ack.id, Failed(ack.error.value));
      } else {
        CompleteWaiter(ack.id, Failed(RECEIVER_FAILED));
      }
    }

    method Cancel(id: TransferId)
      requires Valid()
      modifies this
      ensures Valid() && View() == Complete(old(View()), id, Failed(CANCELLED))
      ensures id in old(pending) ==>
                resolved == old(resolved) + [Resolution(old(pending)[id], id, Failed("transfer cancelled"))]
    {
      CompleteWaiter(id, Failed(CANCELLED));
    }

    /** Cancels every waiter of the snapshot, in the map's arbitrary order. */
    method CancelAll()
      requires Valid()
      modifies this
      ensures Valid() && pending == map[] && issued == old(issued)
      ensures old(resolved) <= resolved && |resolved| == |old(resolved)| + |old(pending)|
      ensures forall id :: id in old(pending) ==>
                Resolution(old(pending)[id], id, Failed(CANCELLED)) in resolved[|old(resolved)|..]
    {
      var snapshot := pending.Keys;
      ghost var start := View();
      assert |start.pending| == |start.pending.Keys|;
      while snapshot != {}
        invariant Valid()
        invariant Cancelling(start, View(), snapshot)
        decreases snapshot
      {
        var id :| id in snapshot;
        CancellingStep(start, View(), snapshot, id);
        Cancel(id);
        snapshot := snapshot - {id};
      }
    }
  }

  /** How far `CancelAll` has come when the waiters of `left` are still to be cancelled. */
  ghost predicate Cancelling(start: Table, now: Table, left: set<TransferId>) {
    && left <= start.pending.Keys
    && now.issued == start.issued
    && now.pending == (map id | id in left :: start.pending[id])
    && start.resolved <= now.resolved
    && |now.resolved| + |left| == |start.resolved| + |start.pending|
    && forall id :: id in start.pending && id !in left ==>
         Resolution(start.pending[id], id, Failed(CANCELLED)) in now.resolved[|start.resolved|..]
  }

  lemma CancellingStep(start: Table, now: Table, left: set<TransferId>, id: TransferId)
    requires Cancelling(start, now, left) && id in left
    ensures Cancelling(start, Complete(now, id, Failed(CANCELLED)), left - {id})
  {
    var next := Complete(now, id, Failed(CANCELLED));
    var n := |start.resolved|;
    assert next.resolved[n..] == now.resolved[n..] + [Resolution(start.pending[id], id, Failed(CANCELLED))];
    assert |left - {id}| == |left| - 1;
  }
}
