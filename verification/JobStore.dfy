/** The store workers call, statement by statement (postgres/jobs.go, postgres/inbox_queue.go): each method leaves the
    table exactly as its operation says, and tells its caller whether it applied. */
module JobStore {
  import opened Values
  import opened JobTable
  import opened JobQueue
  import opened JobRows

  class Store {
    var table: Table
    const lapsed: Status // what a row becomes when its lease runs out after its last start

    ghost predicate Valid() reads this {
      Steady(table) && lapsed in {Interrupted, JobTable.Failed}
    }

    constructor (lapsed: Status)
      requires lapsed in {Interrupted, JobTable.Failed}
      ensures Valid() && table == EMPTY && this.lapsed == lapsed
    {
      this.lapsed := lapsed;
      table := EMPTY;
    }

    method EnqueueCapped(n: NewJob, caps: seq<JobCap>) returns (outcome: Outcome)
      requires Valid()
      modifies this`table
      ensures table == Apply(old(table), Op.Enqueue(n, caps), lapsed) && Valid()
      ensures outcome == EnqueueOutcome(old(table), n, caps)
      ensures RightOutcome(old(table).rows, old(table).now, n, caps, outcome)
      ensures table.rows == if outcome.Queued? then old(table).rows[old(table).next := NewRow(n, old(table).now)]
                            else old(table).rows
    {
      OutcomeExactly(table, n, caps);
      ApplyKeeps(table, Op.Enqueue(n, caps), lapsed);
      if !Complete(n) { return Refused; }
      for i := 0 to |caps|
        invariant forall k :: 0 <= k < i ==> IsCap(caps[k])
      {
        if !IsCap(caps[i]) { return Refused; }
      }
      if Duplicate(table, n) { return DuplicateJob; }
      for i := 0 to |caps|
        invariant FirstFull(table, n, caps) == FirstFull(table, n, caps[i..])
      {
        if Full(table, n, caps[i]) { return OverCap(caps[i]); }
        assert caps[i..][1..] == caps[i + 1..];
      }
      table := Insert(table, n);
      return Queued;
    }

    method Lease(worker: string, limit: int, hold: int) returns (taken: set<JobId>)
      requires Valid()
      modifies this`table
      ensures table == Apply(old(table), Op.Lease(worker, limit, hold), lapsed) && Valid()
      ensures forall id :: id in taken ==> id in table.history && HolderOf(table.history[id]) == Some(worker)
      ensures limit > 0 ==>
                LeasedRight(old(table).rows, old(table).now, lapsed, worker, limit, hold, taken, table.rows)
      ensures limit <= 0 ==> taken == {} && table == old(table)
    {
      if limit <= 0 { return {}; }
      ApplyKeeps(table, Op.Lease(worker, limit, hold), lapsed);
      ghost var t := table;
      var until := After(table, hold);
      table := MarkSpent(table, lapsed);
      taken := First(table.rows, Due(table), limit);
      TakenAreHeld(table, taken, worker, until);
      ghost var m := table;
      table := MoveAll(table, taken, Take(worker, until));
      LeaseSteps(t, lapsed, worker, limit, hold, until, m, taken, table);
    }

    method LeaseFair(worker: string, limit: int, hold: int, perPerson: int, perAgent: int) returns (taken: set<JobId>)
      requires Valid()
      modifies this`table
      ensures table == Apply(old(table), Op.LeaseFair(worker, limit, hold, perPerson, perAgent), lapsed) && Valid()
      ensures forall id :: id in taken ==> id in table.history && HolderOf(table.history[id]) == Some(worker)
      ensures limit > 0 && perPerson > 0 ==>
                FairlyLeased(old(table).rows, old(table).now, lapsed, worker, limit, hold, perPerson, perAgent, taken,
                             table.rows)
      ensures limit <= 0 || perPerson <= 0 ==> taken == {} && table == old(table)
    {
      if limit <= 0 || perPerson <= 0 { return {}; }
      ApplyKeeps(table, Op.LeaseFair(worker, limit, hold, perPerson, perAgent), lapsed);
      ghost var t := table;
      var until := After(table, hold);
      table := MarkSpent(table, lapsed);
      taken := First(table.rows, FairPicks(table, perPerson, perAgent), limit);
      TakenAreHeld(table, taken, worker, until);
      ghost var m := table;
      table := MoveAll(table, taken, Take(worker, until));
      FairLeaseSteps(t, lapsed, worker, limit, hold, perPerson, perAgent, until, m, taken, table);
    }

    /** Extend, Defer, Release, Done, Drop, FailFinal and Fail: each is one UPDATE of the row with this id that is
        running and locked by this worker. */
    method CallOnRow(op: Op) returns (applied: bool)
      requires Valid() && IsOp(op) && OnOneRow(op)
      modifies this`table
      ensures table == Apply(old(table), op, lapsed) && Valid()
      ensures applied <==> op.id in old(table).rows && HolderOf(old(table).history[op.id]) == Some(op.worker)
      ensures !applied ==> table == old(table)
      ensures applied ==> table.rows == old(table).rows[op.id := Called(old(table).rows[op.id], op, old(table).now)]
    {
      OnlyTheHolderMoves(table, op, lapsed);
      ApplyKeeps(table, op, lapsed);
      applied := Holds(table, op.id, op.worker);
      if applied {
        CalledExactly(table, op);
        table := MoveAll(table, {op.id}, AskedMove(table, op));
      }
    }

    /** Each interrupted row is handed out once: what is taken had not been told before, and has been now. */
    method TakeInterrupted(limit: int) returns (taken: set<JobId>)
      requires Valid()
      modifies this`table
      ensures table == Apply(old(table), Op.TakeInterrupted(limit), lapsed) && Valid()
      ensures ToldFirstTime(old(table), taken, table)
      ensures limit > 0 ==>
                ToldRight(old(table).rows, old(table).now, lapsed, limit, taken, table.rows)
    {
      if limit <= 0 { return {}; }
      ApplyKeeps(table, Op.TakeInterrupted(limit), lapsed);
      TellApplies(table, lapsed, limit);
      ghost var t := table;
      table := MarkSpent(table, lapsed);
      taken := FirstIds(Untold(table), limit);
      ghost var m := table;
      table := MoveAll(table, taken, Tell);
      TellIsRight(t, lapsed, limit, m, taken, table);
    }

    method DropLiveJobs()
      requires Valid()
      modifies this`table
      ensures table == Apply(old(table), DropLive, lapsed) && Valid()
      ensures Waiting(table) == {} && table.rows == DroppedRows(old(table).rows)
    {
      DroppedExactly(table);
      ApplyKeeps(table, DropLive, lapsed);
      DropLeavesNoneWaiting(table);
      table := MoveAll(table, Waiting(table), Close(Dropped));
    }
  }
}
