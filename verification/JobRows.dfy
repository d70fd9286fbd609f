/** What the statements of postgres/jobs.go do, said of the columns of the rows alone. */
module JobRows {
  import opened Values
  import opened JobTable
  import opened JobQueue

  type Rows = map<JobId, Job>

  // ── Which rows a statement is about ─────────────────────────────────────────

  predicate IsDue(j: Job, now: Time) {
    || (j.status == New && j.runAt <= now)
    || (j.status == Running && j.lockedUntil.Some? && j.lockedUntil.value < now)
  }

  predicate IsLive(j: Job, now: Time) {
    j.status == Running && j.lockedUntil.Some? && j.lockedUntil.value >= now
  }

  predicate IsSpent(j: Job, now: Time) {
    j.status == Running && j.lockedUntil.Some? && j.lockedUntil.value < now && j.attempts >= j.maxAttempts
  }

  function DueRows(rows: Rows, now: Time): set<JobId> {
    set id | id in rows && IsDue(rows[id], now)
  }

  /** A person's place: their due rows up to this one by due time and id, and what they have running. */
  function PersonsPlace(rows: Rows, now: Time, id: JobId): nat
    requires id in rows
  {
    |set x | x in rows && IsDue(rows[x], now) && rows[x].person == rows[id].person
             && (rows[x].runAt < rows[id].runAt || (rows[x].runAt == rows[id].runAt && x <= id))|
    + |set x | x in rows && IsLive(rows[x], now) && rows[x].person == rows[id].person|
  }

  /** The same of its agent. */
  function AgentsPlace(rows: Rows, now: Time, id: JobId): nat
    requires id in rows
  {
    |set x | x in rows && IsDue(rows[x], now) && rows[x].agent == rows[id].agent
             && (rows[x].runAt < rows[id].runAt || (rows[x].runAt == rows[id].runAt && x <= id))|
    + |set x | x in rows && IsLive(rows[x], now) && rows[x].agent == rows[id].agent|
  }

  /** The rows the fair lease may take: due, and with room for them in their person's share and, where there is one,
      their agent's. */
  function FairRows(rows: Rows, now: Time, perPerson: int, perAgent: int): set<JobId> {
    set id | id in rows && IsDue(rows[id], now) && PersonsPlace(rows, now, id) <= perPerson
             && (perAgent > 0 ==> AgentsPlace(rows, now, id) <= perAgent)
  }

  /** taken are the earliest of may, by due time and id, as many as the limit and there are. */
  predicate Earliest(rows: Rows, may: set<JobId>, limit: int, taken: set<JobId>)
    requires may <= rows.Keys
  {
    && taken <= may && |taken| == (if |may| <= limit then |may| else limit) && (|may| <= limit ==> taken == may)
    && forall x, y :: x in taken && y in may && y !in taken ==>
         rows[x].runAt < rows[y].runAt || (rows[x].runAt == rows[y].runAt && x < y)
  }

  // ── What it leaves ──────────────────────────────────────────────────────────

  function Marked(rows: Rows, now: Time, lapsed: Status): Rows {
    map id | id in rows ::
      if IsSpent(rows[id], now) then rows[id].(status := lapsed, lockedBy := "", lockedUntil := None) else rows[id]
  }

  function Leased(rows: Rows, taken: set<JobId>, worker: string, until: Time): Rows {
    map id | id in rows ::
      if id in taken then
        rows[id].(status := Running, attempts := rows[id].attempts + 1, lockedBy := worker, lockedUntil := Some(until))
      else rows[id]
  }

  /** A row after a call of its holder. */
  function Called(j: Job, op: Op, now: Time): Job
    requires OnOneRow(op)
  {
    var fewer := if j.attempts > 0 then j.attempts - 1 else 0;
    match op
    case Extend(_, _, hold) => j.(lockedUntil := Some(Until(now, hold)))
    case Defer(_, _, until) => j.(status := New, runAt := until, attempts := fewer, lockedBy := "", lockedUntil := None)
    case Release(_, _) => j.(status := New, attempts := fewer, lockedBy := "", lockedUntil := None)
    case Finish(_, _, status) => j.(status := status, lockedBy := "", lockedUntil := None)
    case Fail(_, _, retryAfter) =>
      if j.attempts < j.maxAttempts
      then j.(status := New, runAt := now + retryAfter, lockedBy := "", lockedUntil := None)
      else j.(status := JobTable.Failed, lockedBy := "", lockedUntil := None)
  }

  function TellRows(rows: Rows, taken: set<JobId>): Rows {
    map id | id in rows :: if id in taken then rows[id].(told := true) else rows[id]
  }

  function DroppedRows(rows: Rows): Rows {
    map id | id in rows ::
      if rows[id].status == New || rows[id].status == Running then
        rows[id].(status := Dropped, lockedBy := "", lockedUntil := None)
      else rows[id]
  }

  // ── The steps do that ───────────────────────────────────────────────────────

  lemma MarkedExactly(t: Table, lapsed: Status)
    requires t.rows.Keys <= t.history.Keys
    ensures MarkSpent(t, lapsed).rows == Marked(t.rows, t.now, lapsed) && MarkSpent(t, lapsed).now == t.now
  {
  }

  lemma LeasedExactly(t: Table, taken: set<JobId>, worker: string, until: Time)
    requires t.rows.Keys <= t.history.Keys
    ensures MoveAll(t, taken, Take(worker, until)).rows == Leased(t.rows, taken, worker, until)
  {
  }

  lemma CalledExactly(t: Table, op: Op)
    requires t.rows.Keys <= t.history.Keys && OnOneRow(op) && op.id in t.rows
    ensures MoveAll(t, {op.id}, AskedMove(t, op)).rows == t.rows[op.id := Called(t.rows[op.id], op, t.now)]
  {
  }

  lemma ToldExactly(t: Table, taken: set<JobId>)
    requires t.rows.Keys <= t.history.Keys
    ensures MoveAll(t, taken, Tell).rows == TellRows(t.rows, taken)
  {
  }

  lemma DroppedExactly(t: Table)
    requires t.rows.Keys <= t.history.Keys
    ensures MoveAll(t, Waiting(t), Close(Dropped)).rows == DroppedRows(t.rows)
  {
  }

  lemma DueExactly(t: Table)
    ensures Due(t) == DueRows(t.rows, t.now)
  {
  }

  lemma PlaceExactly(t: Table, id: JobId, limit: int)
    requires id in t.rows
    ensures InLine(t, id, ByPerson(t.rows[id].person), limit) <==> PersonsPlace(t.rows, t.now, id) <= limit
    ensures InLine(t, id, ByAgent(t.rows[id].agent), limit) <==> AgentsPlace(t.rows, t.now, id) <= limit
  {
    var p, a := ByPerson(t.rows[id].person), ByAgent(t.rows[id].agent);
    assert UpTo(t.rows, Of(t, Due(t), p), id)
        == set x | x in t.rows && IsDue(t.rows[x], t.now) && t.rows[x].person == t.rows[id].person
                   && (t.rows[x].runAt < t.rows[id].runAt || (t.rows[x].runAt == t.rows[id].runAt && x <= id));
    assert UpTo(t.rows, Of(t, Due(t), a), id)
        == set x | x in t.rows && IsDue(t.rows[x], t.now) && t.rows[x].agent == t.rows[id].agent
                   && (t.rows[x].runAt < t.rows[id].runAt || (t.rows[x].runAt == t.rows[id].runAt && x <= id));
    assert Of(t, LiveRows(t), p)
        == set x | x in t.rows && IsLive(t.rows[x], t.now) && t.rows[x].person == t.rows[id].person;
    assert Of(t, LiveRows(t), a)
        == set x | x in t.rows && IsLive(t.rows[x], t.now) && t.rows[x].agent == t.rows[id].agent;
  }

  /** The fair picks are exactly the due rows with room in their shares. */
  lemma {:induction false} FairExactly(t: Table, perPerson: int, perAgent: int)
    ensures FairPicks(t, perPerson, perAgent) == FairRows(t.rows, t.now, perPerson, perAgent)
  {
    forall id | id in t.rows
      ensures InLine(t, id, ByPerson(t.rows[id].person), perPerson) <==> PersonsPlace(t.rows, t.now, id) <= perPerson
      ensures InLine(t, id, ByAgent(t.rows[id].agent), perAgent) <==> AgentsPlace(t.rows, t.now, id) <= perAgent
    {
      PlaceExactly(t, id, perPerson);
      PlaceExactly(t, id, perAgent);
    }
    DueExactly(t);
  }

  /** A limit takes the earliest. */
  lemma {:induction false} FirstAreEarliest(rows: Rows, may: set<JobId>, limit: nat)
    requires may <= rows.Keys
    ensures Earliest(rows, may, limit, First(rows, may, limit))
  {
    var taken := First(rows, may, limit);
    FirstTakes(rows, may, limit);
    if |may| <= limit { SameSize(taken, may); }
    forall x, y | x in taken && y in may && y !in taken
      ensures rows[x].runAt < rows[y].runAt || (rows[x].runAt == rows[y].runAt && x < y)
    {
      if AtOrBefore(rows, y, x) { FirstComeFirst(rows, may, limit, x, y); }
    }
  }

  lemma SameSize(a: set<JobId>, b: set<JobId>)
    requires a <= b && |a| == |b|
    ensures a == b
  {
    assert b == a + (b - a);
  }

  /** taken are those of may with the lowest ids, as many as the limit and there are. */
  predicate Lowest(may: set<JobId>, limit: int, taken: set<JobId>) {
    && taken <= may && |taken| == (if |may| <= limit then |may| else limit) && (|may| <= limit ==> taken == may)
    && forall x, y :: x in taken && y in may && y !in taken ==> x < y
  }

  function UntoldRows(rows: Rows): set<JobId> {
    set id | id in rows && rows[id].status == Interrupted && !rows[id].told
  }

  lemma {:induction false} FirstIdsAreLowest(may: set<JobId>, limit: nat)
    ensures Lowest(may, limit, FirstIds(may, limit))
  {
    var rows: Rows := map id | id in may :: Job("", "", "", "", 0, 0, New, 0, 0, "", None, false);
    var taken := First(rows, may, limit);
    forall x | x in may ensures x in taken <==> x in FirstIds(may, limit) {
      assert UpTo(rows, may, x) == NoGreater(may, x);
    }
    assert taken == FirstIds(may, limit);
    FirstAreEarliest(rows, may, limit);
  }

  // ── The leases ──────────────────────────────────────────────────────────────

  /** Of the rows it may take, a lease takes the earliest, and nothing else changes. */
  predicate TakesOf(rows: Rows, may: set<JobId>, limit: int, worker: string, until: Time, taken: set<JobId>,
                    after: Rows) {
    may <= rows.Keys && Earliest(rows, may, limit, taken) && after == Leased(rows, taken, worker, until)
  }

  /** A lease gives up on the spent rows, and then takes of those that are due. */
  predicate LeasedRight(rows: Rows, now: Time, lapsed: Status, worker: string, limit: int, hold: int, taken: set<JobId>,
                        after: Rows)
  {
    TakesOf(Marked(rows, now, lapsed), DueRows(Marked(rows, now, lapsed), now), limit, worker, Until(now, hold), taken,
            after)
  }

  /** The fair lease takes of those with room in their shares. */
  predicate FairlyLeased(rows: Rows, now: Time, lapsed: Status, worker: string, limit: int, hold: int, perPerson: int,
                         perAgent: int, taken: set<JobId>, after: Rows)
  {
    TakesOf(Marked(rows, now, lapsed), FairRows(Marked(rows, now, lapsed), now, perPerson, perAgent), limit, worker,
            Until(now, hold), taken, after)
  }

  predicate TellsOf(rows: Rows, may: set<JobId>, limit: int, taken: set<JobId>, after: Rows) {
    Lowest(may, limit, taken) && after == TellRows(rows, taken)
  }

  predicate ToldRight(rows: Rows, now: Time, lapsed: Status, limit: int, taken: set<JobId>, after: Rows) {
    TellsOf(Marked(rows, now, lapsed), UntoldRows(Marked(rows, now, lapsed)), limit, taken, after)
  }

  lemma FirstTaken(rows: Rows, may: set<JobId>, limit: nat, worker: string, until: Time, taken: set<JobId>, after: Rows)
    requires may <= rows.Keys && taken == First(rows, may, limit) && after == Leased(rows, taken, worker, until)
    ensures TakesOf(rows, may, limit, worker, until, taken, after)
  {
    FirstAreEarliest(rows, may, limit);
  }

  /** Of the rows as they are marked, a lease took the first due ones. */
  lemma LeaseIsRight(rows: Rows, now: Time, lapsed: Status, worker: string, limit: nat, hold: int, marked: Rows,
                     may: set<JobId>, taken: set<JobId>, after: Rows)
    requires marked == Marked(rows, now, lapsed) && may == DueRows(marked, now) && taken == First(marked, may, limit)
    requires after == Leased(marked, taken, worker, Until(now, hold))
    ensures LeasedRight(rows, now, lapsed, worker, limit, hold, taken, after)
  {
    FirstTaken(marked, may, limit, worker, Until(now, hold), taken, after);
  }

  lemma FairLeaseIsRight(rows: Rows, now: Time, lapsed: Status, worker: string, limit: nat, hold: int, perPerson: int,
                         perAgent: int, marked: Rows, may: set<JobId>, taken: set<JobId>, after: Rows)
    requires marked == Marked(rows, now, lapsed) && may == FairRows(marked, now, perPerson, perAgent)
    requires taken == First(marked, may, limit) && after == Leased(marked, taken, worker, Until(now, hold))
    ensures FairlyLeased(rows, now, lapsed, worker, limit, hold, perPerson, perAgent, taken, after)
  {
    FirstTaken(marked, may, limit, worker, Until(now, hold), taken, after);
  }

  lemma MarkedThen(t: Table, lapsed: Status, m: Table)
    requires t.rows.Keys <= t.history.Keys && m == MarkSpent(t, lapsed)
    ensures m.rows == Marked(t.rows, t.now, lapsed) && m.now == t.now && m.rows.Keys <= m.history.Keys
  {
    MarkedExactly(t, lapsed);
  }

  lemma LeasedThen(m: Table, taken: set<JobId>, worker: string, until: Time, u: Table, now: Time, hold: int)
    requires m.rows.Keys <= m.history.Keys && u == MoveAll(m, taken, Take(worker, until)) && until == Until(now, hold)
    ensures u.rows == Leased(m.rows, taken, worker, Until(now, hold))
  {
    LeasedExactly(m, taken, worker, until);
  }

  lemma FairThen(m: Table, now: Time, perPerson: int, perAgent: int)
    requires m.now == now
    ensures FairPicks(m, perPerson, perAgent) == FairRows(m.rows, now, perPerson, perAgent)
  {
    FairExactly(m, perPerson, perAgent);
  }

  lemma DueThen(m: Table, now: Time)
    requires m.now == now
    ensures Due(m) == DueRows(m.rows, now)
  {
    DueExactly(m);
  }

  lemma LeaseSteps(t: Table, lapsed: Status, worker: string, limit: nat, hold: int, until: Time, m: Table,
                   taken: set<JobId>, u: Table)
    requires t.rows.Keys <= t.history.Keys && m == MarkSpent(t, lapsed) && taken == First(m.rows, Due(m), limit)
    requires u == MoveAll(m, taken, Take(worker, until)) && until == Until(t.now, hold)
    ensures LeasedRight(t.rows, t.now, lapsed, worker, limit, hold, taken, u.rows)
  {
    MarkedThen(t, lapsed, m);
    DueThen(m, t.now);
    LeasedThen(m, taken, worker, until, u, t.now, hold);
    LeaseIsRight(t.rows, t.now, lapsed, worker, limit, hold, m.rows, Due(m), taken, u.rows);
  }

  lemma FairLeaseSteps(t: Table, lapsed: Status, worker: string, limit: nat, hold: int, perPerson: int, perAgent: int,
                       until: Time, m: Table, taken: set<JobId>, u: Table)
    requires t.rows.Keys <= t.history.Keys && m == MarkSpent(t, lapsed)
    requires taken == First(m.rows, FairPicks(m, perPerson, perAgent), limit)
    requires u == MoveAll(m, taken, Take(worker, until)) && until == Until(t.now, hold)
    ensures FairlyLeased(t.rows, t.now, lapsed, worker, limit, hold, perPerson, perAgent, taken, u.rows)
  {
    MarkedThen(t, lapsed, m);
    FairThen(m, t.now, perPerson, perAgent);
    LeasedThen(m, taken, worker, until, u, t.now, hold);
    FairLeaseIsRight(t.rows, t.now, lapsed, worker, limit, hold, perPerson, perAgent, m.rows,
                     FairPicks(m, perPerson, perAgent), taken, u.rows);
  }

  /** None of these had been told of, and each has been once now. */
  predicate ToldFirstTime(t: Table, taken: set<JobId>, u: Table) {
    forall id :: id in taken ==>
      && id in t.rows && id in t.history && id in u.history
      && Tells(t.history[id]) == 0 && Tells(u.history[id]) == 1
  }

  lemma LowestTold(rows: Rows, now: Time, lapsed: Status, limit: nat, taken: set<JobId>, after: Rows)
    requires taken == FirstIds(UntoldRows(Marked(rows, now, lapsed)), limit)
    requires after == TellRows(Marked(rows, now, lapsed), taken)
    ensures ToldRight(rows, now, lapsed, limit, taken, after)
  {
    FirstIdsAreLowest(UntoldRows(Marked(rows, now, lapsed)), limit);
  }

  lemma TellApplies(t: Table, lapsed: Status, limit: nat)
    requires t.rows.Keys <= t.history.Keys && limit > 0
    ensures var m := MarkSpent(t, lapsed); Apply(t, TakeInterrupted(limit), lapsed) == MoveAll(m,
              FirstIds(Untold(m), limit), Tell)
  {
  }

  lemma TellIsRight(t: Table, lapsed: Status, limit: nat, m: Table, taken: set<JobId>, u: Table)
    requires Steady(t) && lapsed in {Interrupted, JobTable.Failed}
    requires m == MarkSpent(t, lapsed) && taken == FirstIds(Untold(m), limit) && u == MoveAll(m, taken, Tell)
    ensures ToldRight(t.rows, t.now, lapsed, limit, taken, u.rows)
    ensures ToldFirstTime(t, taken, u)
  {
    ToldOnce(t, limit, lapsed);
    MarkedExactly(t, lapsed);
    assert Untold(m) == UntoldRows(m.rows);
    ToldExactly(m, taken);
    LowestTold(t.rows, t.now, lapsed, limit, taken, u.rows);
  }

  // ── Storing under caps ──────────────────────────────────────────────────────

  predicate HasNames(n: NewJob) {
    n.alert != "" && n.person != "" && n.agent != "" && n.repeatKey != "" && 0 <= n.maxAttempts <= MAX_ATTEMPTS
  }

  /** The rows a cap counts for a new job: of its alert, or of its person with its agent, made within the window; shadow
      ones for a shadow job, for a real one those that wait, run, were carried out or were interrupted. */
  function CountedRows(rows: Rows, now: Time, n: NewJob, c: JobCap): set<JobId> {
    set id | id in rows && now - c.window < rows[id].created <= now
             && (if c.scope.OfAlert? then rows[id].alert == n.alert
                 else rows[id].person == n.person && rows[id].agent == n.agent)
             && (if n.shadow then rows[id].status == Shadow
                 else rows[id].status == New || rows[id].status == Running || rows[id].status == Done
                      || rows[id].status == Interrupted)
  }

  predicate HasTwin(rows: Rows, n: NewJob) {
    exists id :: id in rows && rows[id].alert == n.alert && rows[id].repeatKey == n.repeatKey
  }

  predicate CapsFit(caps: seq<JobCap>) {
    forall c :: c in caps ==> c.window > 0 && c.max >= 0
  }

  predicate Leaves(rows: Rows, now: Time, n: NewJob, c: JobCap) {
    |CountedRows(rows, now, n, c)| < c.max
  }

  /** What storing comes to: the first cap that leaves no room is named. */
  predicate RightOutcome(rows: Rows, now: Time, n: NewJob, caps: seq<JobCap>, outcome: Outcome) {
    if !HasNames(n) || !CapsFit(caps) then outcome == Refused
    else if HasTwin(rows, n) then outcome == DuplicateJob
    else if forall c :: c in caps ==> Leaves(rows, now, n, c) then outcome == Queued
    else exists k :: 0 <= k < |caps| && outcome == OverCap(caps[k]) && !Leaves(rows, now, n, caps[k])
                     && forall j :: 0 <= j < k ==> Leaves(rows, now, n, caps[j])
  }

  lemma LeavesExactly(t: Table, n: NewJob, c: JobCap)
    ensures Full(t, n, c) <==> !Leaves(t.rows, t.now, n, c)
  {
    assert Made(t.rows, BucketOf(n, c.scope), c.window, t.now) == CountedRows(t.rows, t.now, n, c);
  }

  lemma {:induction false} FirstFullAt(t: Table, n: NewJob, caps: seq<JobCap>) returns (k: nat)
    requires FirstFull(t, n, caps).Some?
    ensures k < |caps| && FirstFull(t, n, caps) == Some(caps[k]) && Full(t, n, caps[k])
    ensures forall j :: 0 <= j < k ==> !Full(t, n, caps[j])
  {
    if Full(t, n, caps[0]) { return 0; }
    var rest := FirstFullAt(t, n, caps[1..]);
    k := rest + 1;
    forall j | 0 <= j < k ensures !Full(t, n, caps[j]) { if j > 0 { assert caps[j] == caps[1..][j - 1]; } }
  }

  lemma {:induction false} OutcomeExactly(t: Table, n: NewJob, caps: seq<JobCap>)
    ensures RightOutcome(t.rows, t.now, n, caps, EnqueueOutcome(t, n, caps))
  {
    forall c ensures Full(t, n, c) <==> !Leaves(t.rows, t.now, n, c) { LeavesExactly(t, n, c); }
    if HasNames(n) && CapsFit(caps) && !HasTwin(t.rows, n) && FirstFull(t, n, caps).Some? {
      var k := FirstFullAt(t, n, caps);
      assert caps[k] in caps;
    }
  }

  function NewRow(n: NewJob, now: Time): Job {
    Job(n.alert, n.person, n.agent, n.repeatKey, now, n.runAt, if n.shadow then Shadow else New, 0,
        if n.maxAttempts == 0 then MAX_ATTEMPTS else n.maxAttempts, "", None, false)
  }
}
