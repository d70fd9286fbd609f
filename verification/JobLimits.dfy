/** What the fair lease and the sliding caps guarantee over every run of the job queue. */
module JobLimits {
  import opened Values
  import opened JobTable
  import opened JobQueue

  // ── Fair leasing (postgres/jobs.go:225-268) ─────────────────────────────────

  predicate Bounded(g: Group, perAgent: int) { g.ByPerson? || perAgent > 0 }

  function Share(g: Group, perPerson: int, perAgent: int): int { if g.ByPerson? then perPerson else perAgent }

  /** No person holds more than perPerson live leases, and no agent more than perAgent when it is above 0. */
  ghost predicate Fair(t: Table, perPerson: int, perAgent: int) {
    forall g {:trigger Of(t, LiveRows(t), g)} :: Bounded(g, perAgent) ==>
      |Of(t, LiveRows(t), g)| <= Share(g, perPerson, perAgent)
  }

  /** What workers are held to: only the fair lease takes jobs, always with the same limits, and only a lease that has
      not run out is extended. */
  predicate FairOp(t: Table, op: Op, perPerson: int, perAgent: int) {
    && !op.Lease?
    && (op.LeaseFair? ==> op.perPerson == perPerson && op.perAgent == perAgent)
    && (op.Extend? && Holds(t, op.id, op.worker) ==> Live(t, op.id))
  }

  lemma FewerLive(t: Table, u: Table, perPerson: int, perAgent: int)
    requires Fair(t, perPerson, perAgent) && LiveRows(u) <= LiveRows(t)
    requires forall id :: id in LiveRows(u) ==> SameJob(t.rows[id], u.rows[id])
    ensures Fair(u, perPerson, perAgent)
  {
    forall g | Bounded(g, perAgent) ensures |Of(u, LiveRows(u), g)| <= Share(g, perPerson, perAgent) {
      Within(Of(u, LiveRows(u), g), Of(t, LiveRows(t), g));
    }
  }

  lemma SumBound(a: set<JobId>, b: set<JobId>, c: set<JobId>)
    requires a <= b + c
    ensures |a| <= |b| + |c|
  {
    Within(a, b + c);
    assert |b + c| == |b| + |c| - |b * c|;
  }

  /** A group's live leases and the picks out of its line together stay within its limit, because a pick's place in line
      is counted from what is running. */
  lemma GroupStaysFair(m: Table, ids: set<JobId>, live: set<JobId>, g: Group, limit: int)
    requires |Of(m, LiveRows(m), g)| <= limit && live <= LiveRows(m) + ids && ids <= Due(m)
    requires forall id :: id in Of(m, ids, g) ==> InLine(m, id, g, limit)
    ensures |Of(m, live, g)| <= limit
  {
    var line, room := Of(m, Due(m), g), limit - |Of(m, LiveRows(m), g)|;
    FirstTakes(m.rows, line, room);
    forall id | id in Of(m, live, g) ensures id in Of(m, LiveRows(m), g) || id in First(m.rows, line, room) {
      if id in ids { assert id in Of(m, ids, g) && InLine(m, id, g, limit); }
    }
    SumBound(Of(m, live, g), Of(m, LiveRows(m), g), First(m.rows, line, room));
  }

  lemma PicksStayFair(m: Table, ids: set<JobId>, worker: string, until: Time, perPerson: int, perAgent: int)
    requires m.rows.Keys <= m.history.Keys && Fair(m, perPerson, perAgent) && ids <= FairPicks(m, perPerson, perAgent)
    ensures Fair(MoveAll(m, ids, Take(worker, until)), perPerson, perAgent)
  {
    var u := MoveAll(m, ids, Take(worker, until));
    forall g | Bounded(g, perAgent) ensures |Of(u, LiveRows(u), g)| <= Share(g, perPerson, perAgent) {
      assert Of(u, LiveRows(u), g) == Of(m, LiveRows(u), g);
      GroupStaysFair(m, ids, LiveRows(u), g, Share(g, perPerson, perAgent));
    }
  }

  lemma MarkingKeepsFair(t: Table, lapsed: Status, perPerson: int, perAgent: int)
    requires t.rows.Keys <= t.history.Keys && Fair(t, perPerson, perAgent) && Ended(lapsed)
    ensures Fair(MarkSpent(t, lapsed), perPerson, perAgent)
  {
    FewerLive(t, MarkSpent(t, lapsed), perPerson, perAgent);
  }

  lemma OnlyTakingMakesLive(t: Table, ids: set<JobId>, m: Move)
    requires t.rows.Keys <= t.history.Keys && !m.Take? && (m.Close? ==> Ended(m.status))
    requires m.Renew? ==> ids <= LiveRows(t)
    ensures LiveRows(MoveAll(t, ids, m)) <= LiveRows(t)
  {
  }

  lemma NoMoreLive(t: Table, op: Op, lapsed: Status)
    requires Steady(t) && IsOp(op) && lapsed in {Interrupted, JobTable.Failed} && !op.Lease? && !op.LeaseFair?
    requires op.Extend? && Holds(t, op.id, op.worker) ==> Live(t, op.id)
    ensures LiveRows(Apply(t, op, lapsed)) <= LiveRows(t)
  {
    if OnOneRow(op) {
      if Holds(t, op.id, op.worker) { OnlyTakingMakesLive(t, {op.id}, AskedMove(t, op)); }
    } else if op.TakeInterrupted? {
      var m := MarkSpent(t, lapsed);
      OnlyTakingMakesLive(t, Spent(t), Close(lapsed));
      OnlyTakingMakesLive(m, FirstIds(Untold(m), op.limit), Tell);
    } else if op.DropLive? {
      OnlyTakingMakesLive(t, Waiting(t), Close(Dropped));
    }
  }

  lemma FairKeeps(t: Table, op: Op, lapsed: Status, perPerson: int, perAgent: int)
    requires Steady(t) && IsOp(op) && lapsed in {Interrupted, JobTable.Failed}
    requires Fair(t, perPerson, perAgent) && FairOp(t, op, perPerson, perAgent)
    ensures Fair(Apply(t, op, lapsed), perPerson, perAgent)
  {
    if op.LeaseFair? {
      if op.limit > 0 && op.perPerson > 0 {
        var m := MarkSpent(t, lapsed);
        MarkingKeepsFair(t, lapsed, perPerson, perAgent);
        PicksStayFair(m, First(m.rows, FairPicks(m, perPerson, perAgent), op.limit), op.worker, After(t, op.hold),
                      perPerson, perAgent);
      }
    } else {
      NoMoreLive(t, op, lapsed);
      StillSameJobs(t, op, lapsed);
      FewerLive(t, Apply(t, op, lapsed), perPerson, perAgent);
    }
  }

  lemma StillSameJobs(t: Table, op: Op, lapsed: Status)
    requires Steady(t) && IsOp(op) && lapsed in {Interrupted, JobTable.Failed}
    ensures var u := Apply(t, op, lapsed); forall id :: id in t.rows && id in u.rows ==> SameJob(t.rows[id], u.rows[id])
  {
    var u := Apply(t, op, lapsed);
    ApplyKeeps(t, op, lapsed);
    forall id | id in t.rows && id in u.rows ensures SameJob(t.rows[id], u.rows[id]) {
      assert RowEvolves(t, u, id);
    }
  }

  /** The operations of a run, each held to FairOp at the moment it is made. */
  predicate FairRun(t: Table, ops: seq<Op>, lapsed: Status, perPerson: int, perAgent: int)
    requires t.rows.Keys <= t.history.Keys && lapsed in {Interrupted, JobTable.Failed}
  {
    ops == [] ||
    var before, op := ops[..|ops| - 1], ops[|ops| - 1];
    FairRun(t, before, lapsed, perPerson, perAgent) && IsOp(op) &&
    FairOp(Run(t, before, lapsed), op, perPerson, perAgent)
  }

  /** However many workers lease, at no moment of a run does anyone hold more than their share. */
  lemma {:induction false} AlwaysFair(t: Table, ops: seq<Op>, lapsed: Status, perPerson: int, perAgent: int)
    requires Steady(t) && lapsed in {Interrupted, JobTable.Failed}
    requires Fair(t, perPerson, perAgent) && FairRun(t, ops, lapsed, perPerson, perAgent)
    ensures Steady(Run(t, ops, lapsed)) && Fair(Run(t, ops, lapsed), perPerson, perAgent)
  {
    if ops != [] {
      var before := ops[..|ops| - 1];
      AlwaysFair(t, before, lapsed, perPerson, perAgent);
      ApplyKeeps(Run(t, before, lapsed), ops[|ops| - 1], lapsed);
      FairKeeps(Run(t, before, lapsed), ops[|ops| - 1], lapsed, perPerson, perAgent);
    }
  }

  /** Extend does not look at whether the lease ran out. Renewing one keeps the limits exactly when it had not, or when
      there is room for it again. */
  lemma ExtendKeepsFairExactly(t: Table, id: JobId, worker: string, hold: nat, lapsed: Status, perPerson: int,
                               perAgent: int)
    requires Steady(t) && Fair(t, perPerson, perAgent) && Holds(t, id, worker)
    ensures var person, agent := ByPerson(t.rows[id].person), ByAgent(t.rows[id].agent);
            Fair(Apply(t, Extend(id, worker, hold), lapsed), perPerson, perAgent)
            <==> || Live(t, id)
                 || (&& |Of(t, LiveRows(t), person)| < perPerson
                     && (perAgent > 0 ==> |Of(t, LiveRows(t), agent)| < perAgent))
  {
    var u := MoveAll(t, {id}, Renew(After(t, hold)));
    RenewedIsLive(t, id, After(t, hold));
    if Live(t, id) {
      FewerLive(t, u, perPerson, perAgent);
    } else {
      RoomExactly(t, u, id, perPerson, perAgent);
    }
  }

  lemma RenewedIsLive(t: Table, id: JobId, until: Time)
    requires t.rows.Keys <= t.history.Keys && id in t.rows && t.rows[id].status.Running? && until >= t.now
    ensures var u := MoveAll(t, {id}, Renew(until));
            && u.rows.Keys == t.rows.Keys && LiveRows(u) == LiveRows(t) + {id}
            && forall x :: x in t.rows ==> SameJob(t.rows[x], u.rows[x])
  {
  }

  lemma RoomExactly(t: Table, u: Table, id: JobId, perPerson: int, perAgent: int)
    requires id in t.rows && u.rows.Keys == t.rows.Keys && id !in LiveRows(t) && LiveRows(u) == LiveRows(t) + {id}
    requires Fair(t, perPerson, perAgent) && forall x :: x in t.rows ==> SameJob(t.rows[x], u.rows[x])
    ensures Fair(u, perPerson, perAgent)
            <==> && |Of(t, LiveRows(t), ByPerson(t.rows[id].person))| < perPerson
                 && (perAgent > 0 ==> |Of(t, LiveRows(t), ByAgent(t.rows[id].agent))| < perAgent)
  {
    OneMoreLive(t, u, id, ByPerson(t.rows[id].person));
    OneMoreLive(t, u, id, ByAgent(t.rows[id].agent));
    forall g ensures g !in {ByPerson(t.rows[id].person), ByAgent(t.rows[id].agent)} ==>
                       |Of(u, LiveRows(u), g)| == |Of(t, LiveRows(t), g)| {
      OneMoreLive(t, u, id, g);
    }
  }

  lemma OneMoreLive(t: Table, u: Table, id: JobId, g: Group)
    requires id in t.rows && u.rows.Keys == t.rows.Keys && id !in LiveRows(t) && LiveRows(u) == LiveRows(t) + {id}
    requires forall x :: x in t.rows ==> SameJob(t.rows[x], u.rows[x])
    ensures |Of(u, LiveRows(u), g)| == |Of(t, LiveRows(t), g)|
              + if g in {ByPerson(t.rows[id].person), ByAgent(t.rows[id].agent)} then 1 else 0
  {
    if g in {ByPerson(t.rows[id].person), ByAgent(t.rows[id].agent)} {
      assert Of(u, LiveRows(u), g) == Of(t, LiveRows(t), g) + {id};
    } else {
      assert Of(u, LiveRows(u), g) == Of(t, LiveRows(t), g);
    }
  }

  /** One person with two jobs: the lease on the first ran out before the second was taken. */
  function LateAndLive(): Table {
    Table(map[0 := Job("a", "p", "m", "k", 0, 9, Running, 1, 6, "w", Some(5), false),
              1 := Job("a", "p", "m", "l", 0, 0, Running, 1, 6, "v", Some(20), false)],
          map[0 := [Take("w", 5)], 1 := [Take("v", 20)]], 10, 2)
  }

  /** The worker that comes back late extends its lease, and the person has two jobs running where one is allowed. */
  lemma LateExtendGoesOver()
    ensures Fair(LateAndLive(), 1, 0) && !Fair(Apply(LateAndLive(), Extend(0, "w", 10), Interrupted), 1, 0)
  {
    var t := LateAndLive();
    HistoryGrows([], Take("w", 5));
    HistoryGrows([], Take("v", 20));
    assert [] + [Take("w", 5)] == t.history[0] && [] + [Take("v", 20)] == t.history[1];
    assert RowGood(t.rows[0], t.history[0]) && RowGood(t.rows[1], t.history[1]);
    assert Steady(t);
    assert LiveRows(t) == {1};
    forall g ensures |Of(t, LiveRows(t), g)| <= 1 { Within(Of(t, LiveRows(t), g), {1}); }
    assert Of(t, LiveRows(t), ByPerson("p")) == {1};
    ExtendKeepsFairExactly(t, 0, "w", 10, Interrupted, 1, 0);
  }

  // ── Sliding caps (postgres/jobs.go:85-166) ──────────────────────────────────

  /** In no window of the cap's length were more counted jobs of the bucket made than the cap allows. */
  ghost predicate WithinCap(t: Table, b: Bucket, window: int, max: int) {
    && (forall id :: id in t.rows ==> t.rows[id].created <= t.now)
    && forall upTo {:trigger Made(t.rows, b, window, upTo)} :: |Made(t.rows, b, window, upTo)| <= max
  }

  function ScopeOf(b: Bucket): Scope { if b.AlertJobs? then OfAlert else OfPersonAgent }

  /** Jobs of the bucket are only ever stored under the cap. */
  predicate CappedOp(op: Op, b: Bucket, window: int, max: int) {
    op.Enqueue? && BucketOf(op.job, ScopeOf(b)) == b ==> JobCap(ScopeOf(b), window, max) in op.caps
  }

  lemma NotFullYet(t: Table, n: NewJob, caps: seq<JobCap>, b: Bucket, window: int, max: int)
    requires EnqueueOutcome(t, n, caps).Queued?
    requires BucketOf(n, ScopeOf(b)) == b && JobCap(ScopeOf(b), window, max) in caps
    ensures |Made(t.rows, b, window, t.now)| < max
  {
    assert !Full(t, n, JobCap(ScopeOf(b), window, max));
  }

  lemma InsertStaysWithin(t: Table, n: NewJob, caps: seq<JobCap>, b: Bucket, window: int, max: int, upTo: Time)
    requires Steady(t) && WithinCap(t, b, window, max) && EnqueueOutcome(t, n, caps).Queued?
    requires BucketOf(n, ScopeOf(b)) == b ==> JobCap(ScopeOf(b), window, max) in caps
    ensures |Made(Insert(t, n).rows, b, window, upTo)| <= max
  {
    var after := Made(Insert(t, n).rows, b, window, upTo);
    if t.next in after {
      InTheNewestWindow(t, n, b, window, upTo);
      NotFullYet(t, n, caps, b, window, max);
      SumBound(after, Made(t.rows, b, window, t.now), {t.next});
    } else {
      Within(after, Made(t.rows, b, window, upTo));
    }
  }

  /** A window the new job is in holds no other job than the window that ends now. */
  lemma InTheNewestWindow(t: Table, n: NewJob, b: Bucket, window: int, upTo: Time)
    requires Steady(t) && Complete(n) && (forall id :: id in t.rows ==> t.rows[id].created <= t.now)
    requires t.next in Made(Insert(t, n).rows, b, window, upTo)
    ensures BucketOf(n, ScopeOf(b)) == b
    ensures Made(Insert(t, n).rows, b, window, upTo) <= Made(t.rows, b, window, t.now) + {t.next}
  {
  }

  lemma OnlyEnqueueInserts(t: Table, op: Op, lapsed: Status)
    requires t.rows.Keys <= t.history.Keys && !op.Enqueue?
    ensures Apply(t, op, lapsed).next == t.next && Apply(t, op, lapsed).rows.Keys <= t.rows.Keys
  {
  }

  lemma StaysInBucket(t: Table, u: Table, b: Bucket, window: int, upTo: Time)
    requires Evolves(t, u) && u.rows.Keys <= t.rows.Keys
    ensures Made(u.rows, b, window, upTo) <= Made(t.rows, b, window, upTo)
  {
    forall id | id in Made(u.rows, b, window, upTo) ensures id in Made(t.rows, b, window, upTo) {
      assert RowEvolves(t, u, id);
    }
  }

  lemma CapKeeps(t: Table, op: Op, lapsed: Status, b: Bucket, window: int, max: int)
    requires Steady(t) && IsOp(op) && lapsed in {Interrupted, JobTable.Failed}
    requires WithinCap(t, b, window, max) && CappedOp(op, b, window, max)
    ensures WithinCap(Apply(t, op, lapsed), b, window, max)
  {
    var u := Apply(t, op, lapsed);
    if op.Enqueue? {
      forall upTo: Time {:trigger Made(u.rows, b, window, upTo)} ensures |Made(u.rows, b, window, upTo)| <= max {
        if EnqueueOutcome(t, op.job, op.caps).Queued? { InsertStaysWithin(t, op.job, op.caps, b, window, max, upTo); }
      }
    } else {
      ApplyKeeps(t, op, lapsed);
      OnlyEnqueueInserts(t, op, lapsed);
      forall upTo: Time {:trigger Made(u.rows, b, window, upTo)} ensures |Made(u.rows, b, window, upTo)| <= max {
        StaysInBucket(t, u, b, window, upTo);
        Within(Made(u.rows, b, window, upTo), Made(t.rows, b, window, upTo));
      }
      forall id | id in u.rows ensures u.rows[id].created <= u.now {
        assert RowEvolves(t, u, id);
      }
    }
  }

  /** At every moment of a run, for every window of that length. */
  lemma {:induction false} AlwaysWithinCap(t: Table, ops: seq<Op>, lapsed: Status, b: Bucket, window: int, max: int)
    requires Steady(t) && WithinCap(t, b, window, max) && lapsed in {Interrupted, JobTable.Failed}
    requires forall op :: op in ops ==> IsOp(op) && CappedOp(op, b, window, max)
    ensures WithinCap(Run(t, ops, lapsed), b, window, max)
  {
    if ops != [] {
      var before := ops[..|ops| - 1];
      AlwaysWithinCap(t, before, lapsed, b, window, max);
      RunKeeps(t, before, lapsed);
      CapKeeps(Run(t, before, lapsed), ops[|ops| - 1], lapsed, b, window, max);
    }
  }
}
