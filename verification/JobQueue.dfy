/** The steps of the two queues, and what every run of them keeps: attempts, ownership, endings, one telling. */
module JobQueue {
  import opened Values
  import opened JobTable

  // ── The statements (postgres/jobs.go, postgres/inbox_queue.go) ──────────────

  datatype NewJob = NewJob(alert: string, person: string, agent: string, repeatKey: string, runAt: Time,
                           maxAttempts: int, shadow: bool)

  datatype Scope = OfAlert | OfPersonAgent

  datatype JobCap = JobCap(scope: Scope, window: int, max: int)

  /** Whose jobs a cap counts: one alert's, or one person's with one agent; shadow ones apart from real ones. */
  datatype Bucket = AlertJobs(alert: string, shadow: bool) | PairJobs(person: string, agent: string, shadow: bool)

  function BucketOf(n: NewJob, s: Scope): Bucket {
    if s.OfAlert? then AlertJobs(n.alert, n.shadow) else PairJobs(n.person, n.agent, n.shadow)
  }

  predicate InBucket(j: Job, b: Bucket) {
    && (if b.AlertJobs? then j.alert == b.alert else j.person == b.person && j.agent == b.agent)
    && (if b.shadow then j.status == Shadow else j.status in {New, Running, Done, Interrupted})
  }

  /** The rows of a bucket created in the window of that length that ends at upTo. */
  function Made(rows: map<JobId, Job>, b: Bucket, window: int, upTo: Time): set<JobId> {
    set id | id in rows && InBucket(rows[id], b) && upTo - window < rows[id].created <= upTo
  }

  /** attemptsOf: the default for 0, None for a number that is not allowed. */
  function AttemptsOf(n: NewJob): Option<int> {
    if n.maxAttempts == 0 then Some(MAX_ATTEMPTS)
    else if n.maxAttempts < 0 || n.maxAttempts > MAX_ATTEMPTS then None
    else Some(n.maxAttempts)
  }

  predicate Complete(n: NewJob) {
    n.alert != "" && n.person != "" && n.agent != "" && n.repeatKey != "" && AttemptsOf(n).Some?
  }

  predicate Duplicate(t: Table, n: NewJob) {
    exists id :: id in t.rows && t.rows[id].alert == n.alert && t.rows[id].repeatKey == n.repeatKey
  }

  predicate Full(t: Table, n: NewJob, c: JobCap) {
    |Made(t.rows, BucketOf(n, c.scope), c.window, t.now)| >= c.max
  }

  predicate IsCap(c: JobCap) { c.window > 0 && c.max >= 0 }

  function Insert(t: Table, n: NewJob): Table
    requires AttemptsOf(n).Some?
  {
    var j := Job(n.alert, n.person, n.agent, n.repeatKey, t.now, n.runAt, if n.shadow then Shadow else New,
                 0, AttemptsOf(n).value, "", None, false);
    t.(rows := t.rows[t.next := j], history := t.history[t.next := []], next := t.next + 1)
  }

  /** The first full cap, in the order they are given. */
  function FirstFull(t: Table, n: NewJob, caps: seq<JobCap>): (c: Option<JobCap>)
    ensures c.None? <==> forall x :: x in caps ==> !Full(t, n, x)
    ensures c.Some? ==> c.value in caps && Full(t, n, c.value)
  {
    if caps == [] then None else if Full(t, n, caps[0]) then Some(caps[0]) else FirstFull(t, n, caps[1..])
  }

  datatype Outcome = Queued | DuplicateJob | OverCap(cap: JobCap) | Refused

  /** EnqueueCapped; with no caps it is Enqueue. */
  function EnqueueOutcome(t: Table, n: NewJob, caps: seq<JobCap>): Outcome {
    if !Complete(n) || exists c :: c in caps && !IsCap(c) then Refused
    else if Duplicate(t, n) then DuplicateJob
    else var full := FirstFull(t, n, caps); if full.Some? then OverCap(full.value) else Queued
  }

  /** Rows whose lease ran out after their last allowed start. */
  function Spent(t: Table): set<JobId> {
    set id | id in t.rows && Lapsed(t, id) && t.rows[id].attempts >= t.rows[id].maxAttempts
  }

  predicate Lapsed(t: Table, id: JobId)
    requires id in t.rows
  {
    t.rows[id].status.Running? && t.rows[id].lockedUntil.Some? && t.rows[id].lockedUntil.value < t.now
  }

  function Due(t: Table): set<JobId> {
    set id | id in t.rows && ((t.rows[id].status.New? && t.rows[id].runAt <= t.now) || Lapsed(t, id))
  }

  predicate Live(t: Table, id: JobId)
    requires id in t.rows
  {
    t.rows[id].status.Running? && t.rows[id].lockedUntil.Some? && t.rows[id].lockedUntil.value >= t.now
  }

  /** Who a limit on running jobs is for. */
  datatype Group = ByPerson(name: string) | ByAgent(name: string)

  function Of(t: Table, ids: set<JobId>, g: Group): set<JobId> {
    set id | id in ids && id in t.rows && (if g.ByPerson? then t.rows[id].person else t.rows[id].agent) == g.name
  }

  function LiveRows(t: Table): set<JobId> {
    set id | id in t.rows && Live(t, id)
  }

  /** rn + busy <= limit: the row's place in its group's line, counting what the group has running. */
  predicate InLine(t: Table, id: JobId, g: Group, limit: int)
    requires id in t.rows
  {
    Rank(t.rows, Of(t, Due(t), g), id) + |Of(t, LiveRows(t), g)| <= limit
  }

  function FairPicks(t: Table, perPerson: int, perAgent: int): set<JobId> {
    set id | && id in Due(t) && InLine(t, id, ByPerson(t.rows[id].person), perPerson)
             && (perAgent <= 0 || InLine(t, id, ByAgent(t.rows[id].agent), perAgent))
  }

  function MoveAll(t: Table, ids: set<JobId>, m: Move): Table
    requires t.rows.Keys <= t.history.Keys
  {
    Moved(t, map id | id in t.rows :: if id in ids then m else Stay)
  }

  /** Giving up on spent rows: interrupted for jobs, failed for the inbox. */
  function MarkSpent(t: Table, lapsed: Status): Table
    requires t.rows.Keys <= t.history.Keys
  {
    MoveAll(t, Spent(t), Close(lapsed))
  }

  predicate Holds(t: Table, id: JobId, worker: string) {
    id in t.rows && t.rows[id].lockedBy == worker && t.rows[id].status.Running?
  }

  /** NOW() + make_interval(secs => n). */
  function Until(now: Time, n: int): Time { now + n }

  function After(t: Table, n: int): Time { Until(t.now, n) }

  function Untold(t: Table): set<JobId> {
    set id | id in t.rows && t.rows[id].status.Interrupted? && !t.rows[id].told
  }

  /** Rows that are waiting or running. */
  function Waiting(t: Table): set<JobId> {
    set id | id in t.rows && !Ended(t.rows[id].status)
  }

  /** ORDER BY id LIMIT k. */
  function FirstIds(s: set<JobId>, k: int): set<JobId> {
    set x | x in s && |NoGreater(s, x)| <= k
  }

  function NoGreater(s: set<JobId>, x: JobId): set<JobId> {
    set y | y in s && y <= x
  }

  datatype Op =
    | Tick(time: nat)
    | Enqueue(job: NewJob, caps: seq<JobCap>)
    | Lease(worker: string, limit: int, hold: int)
    | LeaseFair(worker: string, limit: int, hold: int, perPerson: int, perAgent: int)
    | Extend(id: JobId, worker: string, hold: int)
    | Defer(id: JobId, worker: string, until: Time)
    | Release(id: JobId, worker: string)
    | Finish(id: JobId, worker: string, status: Status)
    | Fail(id: JobId, worker: string, retryAfter: int)
    | TakeInterrupted(limit: int)
    | DropLive
    | Purge(ids: set<JobId>)

  predicate IsOp(op: Op) {
    op.Finish? ==> op.status in {Done, Dropped, Failed}
  }

  /** The calls a worker makes about a row it took. */
  predicate OnOneRow(op: Op) {
    op.Extend? || op.Defer? || op.Release? || op.Finish? || op.Fail?
  }

  function AskedMove(t: Table, op: Op): Move
    requires OnOneRow(op)
    requires op.id in t.rows
  {
    match op
    case Extend(_, _, hold) => Renew(After(t, hold))
    case Defer(_, _, until) => HandBack(until)
    case Release(id, _) => HandBack(t.rows[id].runAt)
    case Finish(_, _, status) => Close(status)
    case Fail(id, _, retryAfter) =>
      if t.rows[id].attempts >= t.rows[id].maxAttempts then Close(Failed) else Retry(After(t, retryAfter))
  }

  /** One operation as one step. A lease gives up on spent rows and takes due ones at the same instant. */
  function Apply(t: Table, op: Op, lapsed: Status): Table
    requires t.rows.Keys <= t.history.Keys
  {
    match op
    case Tick(time) => t.(now := t.now + time)
    case Enqueue(job, caps) => if EnqueueOutcome(t, job, caps).Queued? then Insert(t, job) else t
    case Lease(worker, limit, hold) =>
      if limit <= 0 then t
      else var m := MarkSpent(t, lapsed); MoveAll(m, First(m.rows, Due(m), limit), Take(worker, After(t, hold)))
    case LeaseFair(worker, limit, hold, perPerson, perAgent) =>
      if limit <= 0 || perPerson <= 0 then t
      else var m := MarkSpent(t, lapsed); MoveAll(m, First(m.rows, FairPicks(m, perPerson, perAgent), limit),
                                                  Take(worker, After(t, hold)))
    case TakeInterrupted(limit) =>
      if limit <= 0 then t else var m := MarkSpent(t, lapsed); MoveAll(m, FirstIds(Untold(m), limit), Tell)
    case DropLive => MoveAll(t, Waiting(t), Close(Dropped))
    case Purge(ids) => t.(rows := map id | id in t.rows && !(id in ids && Ended(t.rows[id].status)) :: t.rows[id])
    case _ => if Holds(t, op.id, op.worker) then MoveAll(t, {op.id}, AskedMove(t, op)) else t
  }

  // ── What every step keeps ───────────────────────────────────────────────────

  ghost predicate RowGood(j: Job, h: seq<Move>) {
    && 1 <= j.maxAttempts <= MAX_ATTEMPTS
    && j.attempts == Takes(h) - HandBacks(h)
    && 0 <= j.attempts <= j.maxAttempts
    && (j.status.New? ==> j.attempts < j.maxAttempts)
    && (j.status.Running? ==> j.attempts >= 1)
    && HolderOf(h) == (if j.status.Running? then Some(j.lockedBy) else None)
    && (j.status.Running? <==> j.lockedUntil.Some?)
    && (!j.status.Running? ==> j.lockedBy == "")
    && Tells(h) == (if j.told then 1 else 0)
    && (j.told ==> j.status.Interrupted?)
  }

  ghost predicate Steady(t: Table) {
    && t.rows.Keys <= t.history.Keys
    && (forall id :: id in t.history ==> id < t.next)
    && (forall id :: id in t.rows ==> RowGood(t.rows[id], t.history[id]))
    && (forall x, y :: x in t.rows && y in t.rows && x != y ==>
          t.rows[x].alert != t.rows[y].alert || t.rows[x].repeatKey != t.rows[y].repeatKey)
  }

  /** What may happen to a row from one moment to another: its history only grows, what has ended stays as it ended,
      and whose job it is never changes. */
  ghost predicate RowEvolves(t: Table, u: Table, id: JobId) {
    && (id in t.history ==> id in u.history && t.history[id] <= u.history[id])
    && (id in u.rows && id < t.next ==> id in t.rows)
    && (id in t.rows && id in u.rows ==>
          && (Ended(t.rows[id].status) ==> u.rows[id].status == t.rows[id].status)
          && (u.rows[id].status.Shadow? ==> t.rows[id].status.Shadow?)
          && SameJob(t.rows[id], u.rows[id]))
  }

  ghost predicate Evolves(t: Table, u: Table) {
    t.now <= u.now && t.next <= u.next && forall id {:trigger RowEvolves(t, u, id)} :: RowEvolves(t, u, id)
  }

  predicate SameJob(j: Job, k: Job) {
    && j.alert == k.alert && j.person == k.person && j.agent == k.agent && j.repeatKey == k.repeatKey
    && j.created == k.created && j.maxAttempts == k.maxAttempts
  }

  /** The moves a row may make. */
  predicate MayMove(j: Job, m: Move) {
    match m
    case Stay => true
    case Take(_, _) => !Ended(j.status) && j.attempts < j.maxAttempts
    case Renew(_) => j.status.Running?
    case HandBack(_) => j.status.Running?
    case Retry(_) => j.status.Running? && j.attempts < j.maxAttempts
    case Close(s) => !Ended(j.status) && Ended(s) && !s.Shadow?
    case Tell => j.status.Interrupted? && !j.told
  }

  lemma HistoryGrows(h: seq<Move>, m: Move)
    ensures Takes(h + [m]) == Takes(h) + if m.Take? then 1 else 0
    ensures HandBacks(h + [m]) == HandBacks(h) + if m.HandBack? then 1 else 0
    ensures Tells(h + [m]) == Tells(h) + if m.Tell? then 1 else 0
  {
    assert (h + [m])[..|h|] == h;
  }

  lemma {:induction false} MoveKeepsRow(j: Job, h: seq<Move>, m: Move)
    requires RowGood(j, h) && MayMove(j, m)
    ensures RowGood(MoveRow(j, m), MoveHistory(h, m)) && h <= MoveHistory(h, m)
    ensures SameJob(j, MoveRow(j, m)) && (Ended(j.status) ==> MoveRow(j, m).status == j.status)
    ensures MoveRow(j, m).status.Shadow? ==> j.status.Shadow?
  {
    HistoryGrows(h, m);
  }

  lemma MoveAllKeeps(t: Table, ids: set<JobId>, m: Move)
    requires Steady(t) && forall id :: id in ids && id in t.rows ==> MayMove(t.rows[id], m)
    ensures Steady(MoveAll(t, ids, m)) && Evolves(t, MoveAll(t, ids, m))
  {
    var u := MoveAll(t, ids, m);
    forall id | id in t.rows
      ensures RowGood(u.rows[id], u.history[id]) && t.history[id] <= u.history[id] && SameJob(t.rows[id], u.rows[id])
      ensures Ended(t.rows[id].status) ==> u.rows[id].status == t.rows[id].status
      ensures u.rows[id].status.Shadow? ==> t.rows[id].status.Shadow?
    {
      MoveKeepsRow(t.rows[id], t.history[id], if id in ids then m else Stay);
    }
    forall id ensures RowEvolves(t, u, id) {}
  }

  lemma EvolvesOn(t: Table, u: Table, v: Table)
    requires Steady(t) && Evolves(t, u) && Evolves(u, v)
    ensures Evolves(t, v)
  {
    forall id ensures RowEvolves(t, v, id) {
      assert RowEvolves(t, u, id) && RowEvolves(u, v, id);
    }
  }

  lemma LeaseKeeps(t: Table, ids: set<JobId>, worker: string, until: Time, lapsed: Status)
    requires Steady(t) && lapsed in {Interrupted, Failed} && ids <= Due(MarkSpent(t, lapsed))
    ensures var u := MoveAll(MarkSpent(t, lapsed), ids, Take(worker, until)); Steady(u) && Evolves(t, u)
  {
    var m := MarkSpent(t, lapsed);
    MarkSpentKeeps(t, lapsed);
    DueMayBeTaken(m, ids, worker, until);
    MoveAllKeeps(m, ids, Take(worker, until));
    EvolvesOn(t, m, MoveAll(m, ids, Take(worker, until)));
  }

  lemma TellKeeps(t: Table, limit: int, lapsed: Status)
    requires Steady(t) && lapsed in {Interrupted, Failed}
    ensures var m := MarkSpent(t, lapsed);
            var u := MoveAll(m, FirstIds(Untold(m), limit), Tell);
            Steady(u) && Evolves(t, u)
  {
    var m := MarkSpent(t, lapsed);
    MarkSpentKeeps(t, lapsed);
    var ids := FirstIds(Untold(m), limit);
    UntoldMayBeTold(m, ids);
    MoveAllKeeps(m, ids, Tell);
    EvolvesOn(t, m, MoveAll(m, ids, Tell));
  }

  lemma UntoldMayBeTold(m: Table, ids: set<JobId>)
    requires ids <= Untold(m)
    ensures forall id :: id in ids && id in m.rows ==> MayMove(m.rows[id], Tell)
  {
    forall id | id in ids && id in m.rows ensures MayMove(m.rows[id], Tell) { assert id in Untold(m); }
  }

  lemma AskedKeeps(t: Table, op: Op)
    requires Steady(t) && IsOp(op) && OnOneRow(op)
    requires Holds(t, op.id, op.worker)
    ensures var u := MoveAll(t, {op.id}, AskedMove(t, op)); Steady(u) && Evolves(t, u)
  {
    assert RowGood(t.rows[op.id], t.history[op.id]);
    assert MayMove(t.rows[op.id], AskedMove(t, op));
    MoveAllKeeps(t, {op.id}, AskedMove(t, op));
  }

  lemma EvolvesFromItself(t: Table, time: nat)
    ensures Evolves(t, t) && Evolves(t, t.(now := t.now + time))
  {
    forall id ensures RowEvolves(t, t, id) && RowEvolves(t, t.(now := t.now + time), id) {}
  }

  lemma ApplyKeeps(t: Table, op: Op, lapsed: Status)
    requires Steady(t) && IsOp(op) && lapsed in {Interrupted, Failed}
    ensures Steady(Apply(t, op, lapsed)) && Evolves(t, Apply(t, op, lapsed))
  {
    if OnOneRow(op) {
      AppliedToOneRow(t, op, lapsed);
      if Holds(t, op.id, op.worker) { AskedKeeps(t, op); } else { EvolvesFromItself(t, 0); }
    } else {
      TableStepKeeps(t, op, lapsed);
    }
  }

  lemma TableStepKeeps(t: Table, op: Op, lapsed: Status)
    requires Steady(t) && !OnOneRow(op) && lapsed in {Interrupted, Failed}
    ensures Steady(Apply(t, op, lapsed)) && Evolves(t, Apply(t, op, lapsed))
  {
    EvolvesFromItself(t, if op.Tick? then op.time else 0);
    match op
    case Tick(time) =>
    case Purge(ids) => PurgeKeeps(t, ids, lapsed);
    case Enqueue(job, caps) => if EnqueueOutcome(t, job, caps).Queued? { InsertKeeps(t, job); }
    case Lease(worker, limit, hold) => if limit > 0 { PlainLeaseKeeps(t, op, lapsed); }
    case LeaseFair(worker, limit, hold, perPerson, perAgent) =>
      if limit > 0 && perPerson > 0 { FairLeaseKeeps(t, op, lapsed); }
    case TakeInterrupted(limit) => TellKeeps(t, limit, lapsed);
    case DropLive => MoveAllKeeps(t, Waiting(t), Close(Dropped));
  }

  lemma PlainLeaseKeeps(t: Table, op: Op, lapsed: Status)
    requires Steady(t) && op.Lease? && op.limit > 0 && lapsed in {Interrupted, Failed}
    ensures Steady(Apply(t, op, lapsed)) && Evolves(t, Apply(t, op, lapsed))
  {
    var m := MarkSpent(t, lapsed);
    LeaseKeeps(t, First(m.rows, Due(m), op.limit), op.worker, After(t, op.hold), lapsed);
  }

  lemma FairLeaseKeeps(t: Table, op: Op, lapsed: Status)
    requires Steady(t) && op.LeaseFair? && op.limit > 0 && op.perPerson > 0 && lapsed in {Interrupted, Failed}
    ensures Steady(Apply(t, op, lapsed)) && Evolves(t, Apply(t, op, lapsed))
  {
    var m := MarkSpent(t, lapsed);
    LeaseKeeps(t, First(m.rows, FairPicks(m, op.perPerson, op.perAgent), op.limit), op.worker, After(t, op.hold),
               lapsed);
  }

  lemma AppliedToOneRow(t: Table, op: Op, lapsed: Status)
    requires t.rows.Keys <= t.history.Keys && OnOneRow(op)
    ensures Apply(t, op, lapsed) == if Holds(t, op.id, op.worker) then MoveAll(t, {op.id}, AskedMove(t, op)) else t
  {
  }

  lemma PurgeKeeps(t: Table, ids: set<JobId>, lapsed: Status)
    requires Steady(t)
    ensures var u := Apply(t, Purge(ids), lapsed); Steady(u) && Evolves(t, u)
  {
    forall id ensures RowEvolves(t, Apply(t, Purge(ids), lapsed), id) {}
  }

  lemma InsertKeeps(t: Table, n: NewJob)
    requires Steady(t) && Complete(n) && !Duplicate(t, n)
    ensures Steady(Insert(t, n)) && Evolves(t, Insert(t, n))
  {
    forall id ensures RowEvolves(t, Insert(t, n), id) {}
  }

  lemma MarkSpentKeeps(t: Table, lapsed: Status)
    requires Steady(t) && lapsed in {Interrupted, Failed}
    ensures var m := MarkSpent(t, lapsed); Steady(m) && Evolves(t, m) && Spent(m) == {}
  {
    SpentMayClose(t, lapsed);
    MoveAllKeeps(t, Spent(t), Close(lapsed));
    NoneSpentAfter(t, lapsed);
  }

  lemma SpentMayClose(t: Table, lapsed: Status)
    requires lapsed in {Interrupted, Failed}
    ensures forall id :: id in Spent(t) && id in t.rows ==> MayMove(t.rows[id], Close(lapsed))
  {
  }

  lemma NoneSpentAfter(t: Table, lapsed: Status)
    requires t.rows.Keys <= t.history.Keys && lapsed in {Interrupted, Failed}
    ensures Spent(MarkSpent(t, lapsed)) == {}
  {
    var m := MarkSpent(t, lapsed);
    forall id | id in m.rows ensures id !in Spent(m) {
      assert m.rows[id] == MoveRow(t.rows[id], if id in Spent(t) then Close(lapsed) else Stay);
    }
  }

  lemma DueMayBeTaken(m: Table, ids: set<JobId>, worker: string, until: Time)
    requires Steady(m) && ids <= Due(m) && ids !! Spent(m)
    ensures forall id :: id in ids ==> id in m.rows && MayMove(m.rows[id], Take(worker, until))
  {
    forall id | id in ids ensures id in m.rows && MayMove(m.rows[id], Take(worker, until)) {
      assert id in Due(m) && id !in Spent(m) && RowGood(m.rows[id], m.history[id]);
    }
  }

  // ── Whole runs ──────────────────────────────────────────────────────────────

  function Run(t: Table, ops: seq<Op>, lapsed: Status): (u: Table)
    requires t.rows.Keys <= t.history.Keys && lapsed in {Interrupted, Failed}
    ensures u.rows.Keys <= u.history.Keys
  {
    if ops == [] then t
    else
      var before := Run(t, ops[..|ops| - 1], lapsed);
      RowsHaveHistory(before, ops[|ops| - 1], lapsed);
      Apply(before, ops[|ops| - 1], lapsed)
  }

  lemma RowsHaveHistory(t: Table, op: Op, lapsed: Status)
    requires t.rows.Keys <= t.history.Keys
    ensures Apply(t, op, lapsed).rows.Keys <= Apply(t, op, lapsed).history.Keys
  {
  }

  /** Every run keeps the table steady, and never takes back what it did. */
  lemma {:induction false} RunKeeps(t: Table, ops: seq<Op>, lapsed: Status)
    requires Steady(t) && lapsed in {Interrupted, Failed} && forall op :: op in ops ==> IsOp(op)
    ensures Steady(Run(t, ops, lapsed)) && Evolves(t, Run(t, ops, lapsed))
  {
    if ops == [] {
      forall id ensures RowEvolves(t, t, id) {}
    } else {
      var before := Run(t, ops[..|ops| - 1], lapsed);
      RunKeeps(t, ops[..|ops| - 1], lapsed);
      ApplyKeeps(before, ops[|ops| - 1], lapsed);
      EvolvesOn(t, before, Run(t, ops, lapsed));
    }
  }

  // ── What the runs keep, said for a caller ───────────────────────────────────

  /** A call on a row applies exactly when its caller was the last to take the row and the row has not moved since;
      otherwise nothing changes. */
  lemma {:induction false} OnlyTheHolderMoves(t: Table, op: Op, lapsed: Status)
    requires Steady(t) && OnOneRow(op)
    ensures Holds(t, op.id, op.worker) <==> op.id in t.rows && HolderOf(t.history[op.id]) == Some(op.worker)
    ensures !Holds(t, op.id, op.worker) ==> Apply(t, op, lapsed) == t
    ensures Holds(t, op.id, op.worker) && !op.Extend? ==>
              HolderOf(Apply(t, op, lapsed).history[op.id]) == None &&
              Apply(t, op, lapsed).history[op.id] != t.history[op.id]
  {
    AppliedToOneRow(t, op, lapsed);
    if op.id in t.rows { assert RowGood(t.rows[op.id], t.history[op.id]); }
    if Holds(t, op.id, op.worker) && !op.Extend? { HistoryEnds(t.history[op.id], AskedMove(t, op)); }
  }

  lemma HistoryEnds(h: seq<Move>, m: Move)
    requires !m.Stay? && !m.Renew? && !m.Take?
    ensures MoveHistory(h, m) != h && HolderOf(MoveHistory(h, m)) == None
  {
  }

  /** Over any run, a row that had no start left is started again only as often as it was handed back. */
  lemma StartedAgainOnlyIfHandedBack(t: Table, ops: seq<Op>, lapsed: Status, id: JobId)
    requires Steady(t) && lapsed in {Interrupted, Failed} && forall op :: op in ops ==> IsOp(op)
    requires id in t.rows && t.rows[id].attempts == t.rows[id].maxAttempts
    requires id in Run(t, ops, lapsed).rows
    ensures var h, h' := t.history[id], Run(t, ops, lapsed).history[id];
            h <= h' && Takes(h') - Takes(h) <= HandBacks(h') - HandBacks(h)
  {
    var u := Run(t, ops, lapsed);
    RunKeeps(t, ops, lapsed);
    assert RowEvolves(t, u, id) && RowGood(t.rows[id], t.history[id]) && RowGood(u.rows[id], u.history[id]);
  }

  /** Over any run, what has ended stays as it ended, and an interrupted job is handed out for telling at most once. */
  lemma EndedForGood(t: Table, ops: seq<Op>, lapsed: Status, id: JobId)
    requires Steady(t) && lapsed in {Interrupted, Failed} && forall op :: op in ops ==> IsOp(op)
    requires id in t.rows && id in Run(t, ops, lapsed).rows
    ensures var u := Run(t, ops, lapsed);
            && (Ended(t.rows[id].status) ==> u.rows[id].status == t.rows[id].status)
            && Tells(u.history[id]) <= 1 && (Tells(u.history[id]) == 1 ==> u.rows[id].status.Interrupted?)
  {
    var u := Run(t, ops, lapsed);
    RunKeeps(t, ops, lapsed);
    assert RowEvolves(t, u, id) && RowGood(u.rows[id], u.history[id]);
  }

  lemma TakenAreHeld(m: Table, ids: set<JobId>, worker: string, until: Time)
    requires m.rows.Keys <= m.history.Keys && ids <= m.rows.Keys
    ensures var u := MoveAll(m, ids, Take(worker, until));
            forall id :: id in ids ==> id in u.history && HolderOf(u.history[id]) == Some(worker)
  {
  }

  /** What is handed out for telling had never been told of, and now has been once. */
  lemma {:induction false} ToldOnce(t: Table, limit: int, lapsed: Status)
    requires Steady(t) && lapsed in {Interrupted, Failed}
    ensures var m := MarkSpent(t, lapsed);
            var u := MoveAll(m, FirstIds(Untold(m), limit), Tell);
            forall id :: id in FirstIds(Untold(m), limit) ==>
              id in t.rows && id in u.history && Tells(t.history[id]) == 0 && Tells(u.history[id]) == 1
  {
    var m := MarkSpent(t, lapsed);
    var ids := FirstIds(Untold(m), limit);
    var u := MoveAll(m, ids, Tell);
    MarkSpentKeeps(t, lapsed);
    forall id | id in ids
      ensures id in t.rows && id in u.history && Tells(t.history[id]) == 0 && Tells(u.history[id]) == 1
    {
      assert RowGood(m.rows[id], m.history[id]) && RowGood(t.rows[id], t.history[id]);
      HistoryGrows(m.history[id], Tell);
    }
  }

  lemma DropLeavesNoneWaiting(t: Table)
    requires t.rows.Keys <= t.history.Keys
    ensures Waiting(MoveAll(t, Waiting(t), Close(Dropped))) == {}
  {
  }

  // ── A lease is two statements ───────────────────────────────────────────────

  /** The table the taking statement of a lease finds, d after its marking statement read the clock. */
  function Later(t: Table, lapsed: Status, d: nat): Table
    requires t.rows.Keys <= t.history.Keys
  {
    MarkSpent(t, lapsed).(now := t.now + d)
  }

  /** On its last start, with a lease that was live at the marking and has run out by the taking. */
  predicate RanOutBetween(t: Table, id: JobId, d: nat) {
    && id in t.rows && t.rows[id].status.Running? && t.rows[id].attempts == t.rows[id].maxAttempts
    && t.rows[id].lockedUntil.Some? && t.now <= t.rows[id].lockedUntil.value < t.now + d
  }

  /** After the marking, the rows that are spent are those. */
  lemma {:induction false} SpentLater(t: Table, lapsed: Status, d: nat, id: JobId)
    requires Steady(t) && lapsed in {Interrupted, Failed}
    ensures id in Spent(Later(t, lapsed, d)) <==> RanOutBetween(t, id, d)
  {
    if id in t.rows {
      assert RowGood(t.rows[id], t.history[id]);
      assert Later(t, lapsed, d).rows[id] == MoveRow(t.rows[id], if id in Spent(t) then Close(lapsed) else Stay);
    }
  }

  predicate WithinStarts(t: Table) {
    forall id :: id in t.rows ==> t.rows[id].attempts <= t.rows[id].maxAttempts
  }

  /** A lease that marks at one moment and takes some of what is due d later keeps every row within its starts exactly
      when it takes none on its last start whose lease ran out in between. */
  lemma {:induction false} TakingKeepsTheLimitExactly(t: Table, lapsed: Status, d: nat, ids: set<JobId>,
                                                      worker: string, until: Time)
    requires Steady(t) && lapsed in {Interrupted, Failed} && ids <= Due(Later(t, lapsed, d))
    ensures WithinStarts(MoveAll(Later(t, lapsed, d), ids, Take(worker, until)))
            <==> forall id :: id in ids ==> !RanOutBetween(t, id, d)
  {
    var l := Later(t, lapsed, d);
    var u := MoveAll(l, ids, Take(worker, until));
    MarkSpentKeeps(t, lapsed);
    forall id | id in l.rows
      ensures u.rows[id].attempts <= u.rows[id].maxAttempts <==> !(id in ids && RanOutBetween(t, id, d))
    {
      assert RowGood(l.rows[id], l.history[id]);
      SpentLater(t, lapsed, d, id);
      TakenOnce(l, ids, worker, until, id);
    }
  }

  lemma TakenOnce(l: Table, ids: set<JobId>, worker: string, until: Time, id: JobId)
    requires l.rows.Keys <= l.history.Keys && id in l.rows && ids <= Due(l) && RowGood(l.rows[id], l.history[id])
    ensures var j := MoveAll(l, ids, Take(worker, until)).rows[id];
            j.attempts <= j.maxAttempts <==> !(id in ids && id in Spent(l))
  {
    assert id in ids ==> id in Due(l);
  }

  /** So for the first due rows, which the plain lease takes. */
  lemma LeasingKeepsTheLimitExactly(t: Table, lapsed: Status, d: nat, limit: nat, worker: string, until: Time)
    requires Steady(t) && lapsed in {Interrupted, Failed}
    ensures var l := Later(t, lapsed, d);
            var ids := First(l.rows, Due(l), limit);
            WithinStarts(MoveAll(l, ids, Take(worker, until))) <==> forall id :: id in ids ==> !RanOutBetween(t, id, d)
  {
    var l := Later(t, lapsed, d);
    TakingKeepsTheLimitExactly(t, lapsed, d, First(l.rows, Due(l), limit), worker, until);
  }

  /** And for the fair picks. */
  lemma LeasingFairKeepsTheLimitExactly(t: Table, lapsed: Status, d: nat, limit: nat, perPerson: int, perAgent: int,
                                        worker: string, until: Time)
    requires Steady(t) && lapsed in {Interrupted, Failed}
    ensures var l := Later(t, lapsed, d);
            var ids := First(l.rows, FairPicks(l, perPerson, perAgent), limit);
            WithinStarts(MoveAll(l, ids, Take(worker, until))) <==> forall id :: id in ids ==> !RanOutBetween(t, id, d)
  {
    var l := Later(t, lapsed, d);
    TakingKeepsTheLimitExactly(t, lapsed, d, First(l.rows, FairPicks(l, perPerson, perAgent), limit), worker, until);
  }

  /** A job that may be started once, and was, by a worker whose lease runs out after moment 5. */
  function OnItsOnlyStart(now: Time): Table {
    Table(map[0 := Job("a", "p", "m", "k", 0, 0, Running, 1, 1, "w", Some(5), false)], map[0 := [Take("w", 5)]], now, 1)
  }

  lemma OnItsOnlyStartSteady(now: Time)
    ensures Steady(OnItsOnlyStart(now))
    ensures Spent(OnItsOnlyStart(now)) == Due(OnItsOnlyStart(now)) == if now > 5 then {0} else {}
  {
    var t := OnItsOnlyStart(now);
    HistoryGrows([], Take("w", 5));
    assert [] + [Take("w", 5)] == t.history[0];
    assert RowGood(t.rows[0], t.history[0]);
  }

  lemma NothingToMark()
    ensures Later(OnItsOnlyStart(5), Interrupted, 1) == OnItsOnlyStart(6)
  {
    OnItsOnlyStartSteady(5);
    var t := OnItsOnlyStart(5);
    var m := MarkSpent(t, Interrupted);
    assert m.rows == t.rows && m.history == t.history;
  }

  lemma FirstOfOne(rows: map<JobId, Job>, id: JobId)
    requires id in rows
    ensures First(rows, {id}, 1) == {id}
  {
    assert UpTo(rows, {id}, id) == {id};
  }

  /** When its lease runs out between the two statements, it is started a second time. */
  lemma {:induction false} StartedTwiceBetweenStatements()
    ensures var t := OnItsOnlyStart(5);
            var l := Later(t, Interrupted, 1);
            Steady(t) && First(l.rows, Due(l), 1) == {0}
            && !WithinStarts(MoveAll(l, First(l.rows, Due(l), 1), Take("v", 11)))
  {
    OnItsOnlyStartSteady(5);
    OnItsOnlyStartSteady(6);
    NothingToMark();
    FirstOfOne(OnItsOnlyStart(6).rows, 0);
    assert RanOutBetween(OnItsOnlyStart(5), 0, 1);
    LeasingKeepsTheLimitExactly(OnItsOnlyStart(5), Interrupted, 1, 1, "v", 11);
  }
}
