/** The leased queue of jobs (postgres/jobs.go) and of inbox rows (postgres/inbox_queue.go). Each SQL statement is one
    step over a table of rows and a clock; a step moves every row by one of a few moves, and each row's history keeps
    the moves it made. */
module JobTable {
  import opened Values

  type Time = int
  type JobId = nat

  const MAX_ATTEMPTS: nat := 6

  // ── Rows and their moves ────────────────────────────────────────────────────

  datatype Status = New | Running | Done | Dropped | Failed | Interrupted | Shadow

  predicate Ended(s: Status) { !s.New? && !s.Running? }

  datatype Job = Job(
    alert: string, person: string, agent: string, repeatKey: string,
    created: Time, runAt: Time, status: Status,
    attempts: int, maxAttempts: int,
    lockedBy: string, lockedUntil: Option<Time>, told: bool)

  datatype Move =
    | Stay
    | Take(worker: string, until: Time)
    | Renew(until: Time)
    | HandBack(runAt: Time)
    | Retry(runAt: Time)
    | Close(status: Status)
    | Tell

  function Max0(n: int): int { if n < 0 then 0 else n }

  /** The columns an UPDATE sets. */
  function MoveRow(j: Job, m: Move): Job {
    match m
    case Stay => j
    case Take(worker, until) => j.(status := Running, attempts := j.attempts + 1, lockedBy := worker,
                                   lockedUntil := Some(until))
    case Renew(until) => j.(lockedUntil := Some(until))
    case HandBack(at) => j.(status := New, runAt := at, attempts := Max0(j.attempts - 1), lockedBy := "",
                            lockedUntil := None)
    case Retry(at) => j.(status := New, runAt := at, lockedBy := "", lockedUntil := None)
    case Close(s) => j.(status := s, lockedBy := "", lockedUntil := None)
    case Tell => j.(told := true)
  }

  function MoveHistory(h: seq<Move>, m: Move): seq<Move> {
    if m.Stay? || m.Renew? then h else h + [m]
  }

  function Takes(h: seq<Move>): nat {
    if h == [] then 0 else Takes(h[..|h| - 1]) + if h[|h| - 1].Take? then 1 else 0
  }

  function HandBacks(h: seq<Move>): nat {
    if h == [] then 0 else HandBacks(h[..|h| - 1]) + if h[|h| - 1].HandBack? then 1 else 0
  }

  function Tells(h: seq<Move>): nat {
    if h == [] then 0 else Tells(h[..|h| - 1]) + if h[|h| - 1].Tell? then 1 else 0
  }

  /** Who holds the row: the worker that took it last, until the row moved again. */
  function HolderOf(h: seq<Move>): Option<string> {
    if h != [] && h[|h| - 1].Take? then Some(h[|h| - 1].worker) else None
  }

  datatype Table = Table(rows: map<JobId, Job>, history: map<JobId, seq<Move>>, now: Time, next: JobId)

  const EMPTY := Table(map[], map[], 0, 0)

  function Moved(t: Table, move: map<JobId, Move>): Table
    requires move.Keys == t.rows.Keys <= t.history.Keys
  {
    t.(rows := map id | id in t.rows :: MoveRow(t.rows[id], move[id]),
       history := map id | id in t.history :: if id in t.rows then MoveHistory(t.history[id], move[id])
                                              else t.history[id])
  }

  // ── Order and limits ────────────────────────────────────────────────────────

  /** ORDER BY run_at, id. */
  predicate AtOrBefore(rows: map<JobId, Job>, x: JobId, y: JobId)
    requires x in rows && y in rows
  {
    rows[x].runAt < rows[y].runAt || (rows[x].runAt == rows[y].runAt && x <= y)
  }

  /** ROW_NUMBER() over s in that order. */
  function Rank(rows: map<JobId, Job>, s: set<JobId>, x: JobId): nat
    requires s <= rows.Keys && x in rows
  {
    |UpTo(rows, s, x)|
  }

  function UpTo(rows: map<JobId, Job>, s: set<JobId>, x: JobId): set<JobId>
    requires s <= rows.Keys && x in rows
  {
    set y | y in s && AtOrBefore(rows, y, x)
  }

  /** ORDER BY run_at, id LIMIT k. */
  function First(rows: map<JobId, Job>, s: set<JobId>, k: int): set<JobId>
    requires s <= rows.Keys
  {
    set x | x in s && Rank(rows, s, x) <= k
  }

  lemma {:induction false} LastOf(rows: map<JobId, Job>, s: set<JobId>) returns (m: JobId)
    requires s <= rows.Keys && s != {}
    ensures m in s && forall x :: x in s ==> AtOrBefore(rows, x, m)
    decreases |s|
  {
    m :| m in s;
    var rest := s - {m};
    if rest != {} {
      var n := LastOf(rows, rest);
      if AtOrBefore(rows, m, n) { m := n; }
    }
    forall x | x in s ensures AtOrBefore(rows, x, m) { assert x in rest || x !in rest; }
  }

  /** What LIMIT leaves out comes after what it takes. */
  lemma FirstComeFirst(rows: map<JobId, Job>, s: set<JobId>, k: int, x: JobId, y: JobId)
    requires s <= rows.Keys && x in First(rows, s, k) && y in s && AtOrBefore(rows, y, x)
    ensures y in First(rows, s, k)
  {
    Within(UpTo(rows, s, y), UpTo(rows, s, x));
  }

  /** LIMIT k takes k rows, or all when there are fewer. */
  lemma {:induction false} FirstTakes(rows: map<JobId, Job>, s: set<JobId>, k: nat)
    requires s <= rows.Keys
    ensures |First(rows, s, k)| == if |s| <= k then |s| else k
    decreases |s|
  {
    if |s| <= k {
      forall x | x in s ensures x in First(rows, s, k) {
        Within(UpTo(rows, s, x), s);
      }
      assert First(rows, s, k) == s;
    } else {
      var m := LastOf(rows, s);
      var rest := s - {m};
      FirstTakes(rows, rest, k);
      assert UpTo(rows, s, m) == s;
      forall x | x in rest ensures Rank(rows, s, x) <= k <==> Rank(rows, rest, x) <= k {
        assert UpTo(rows, s, x) == UpTo(rows, rest, x);
      }
      assert First(rows, s, k) == First(rows, rest, k);
    }
  }

  lemma Within(a: set<JobId>, b: set<JobId>)
    requires a <= b
    ensures |a| <= |b|
  {
    var c := b - a;
    assert b == a + c;
  }
}
