/**
 * The webhook retry queue: rows with a status, an attempt number and a due
 * time; a worker that claims the ten earliest due rows and resolves them one
 * by one while other tasks keep enqueueing.
 */
module RetryQueue {
  import opened Prelude

  /** Instants and delays in microseconds, the resolution of the stored timestamps. */
  const SECOND: int := 1_000_000
  const CLAIM_LIMIT: nat := 10

  datatype Status = Pending | InProgress | DeadLetter | Succeeded

  datatype Row = Row(automation: nat, actionType: string, attempt: int, maxAttempts: int,
                     createdAt: int, dueAt: int, status: Status)

  /** One delivery made by the worker: its row was claimed at one instant, it was over at another. */
  datatype Exec = Exec(row: nat, attempt: int, claimedAt: int, at: int, delivered: bool)

  /** What the worker meets when it takes up a claimed row. */
  datatype Outcome = Unavailable | Disabled | Delivered | Refused

  /** The table, the claimed rows the worker still has to resolve and when it claimed them, the deliveries so far, the clock. */
  datatype Queue = Queue(rows: seq<Row>, work: seq<nat>, claimedAt: int, execs: seq<Exec>, now: int)

  datatype Action =
    | Enqueue(automation: nat, actionType: string, maxAttempts: int, at: int)
    | Claim(picked: seq<nat>, at: int)
    | Resolve(outcome: Outcome, at: int)

  /** `retry_delay_for_attempt` */
  function RetryDelay(attempt: int): (d: int)
    ensures d >= 30 * SECOND
  {
    match attempt
    case 1 => 30 * SECOND
    case 2 => 120 * SECOND
    case 3 => 600 * SECOND
    case _ => 1800 * SECOND
  }

  /** The first `n` delays together. */
  function DelaySum(n: int): int
    decreases n
  {
    if n <= 0 then 0 else DelaySum(n - 1) + RetryDelay(n)
  }

  /** The backoff schedule added up: 30 s, 2 min 30 s, 12 min 30 s, and half an hour more for each further attempt. */
  lemma {:induction false} DelaySumIs(n: int)
    ensures DelaySum(n) == if n <= 0 then 0
                           else if n == 1 then 30 * SECOND
                           else if n == 2 then 150 * SECOND
                           else (750 + 1800 * (n - 3)) * SECOND
    decreases n
  {
    if n > 0 {
      DelaySumIs(n - 1);
    }
  }

  predicate Due(row: Row, now: int) {
    row.status.Pending? && row.dueAt <= now
  }

  /** `ORDER BY next_attempt_at ASC LIMIT 10` over the due rows, ties in any order. */
  ghost predicate EarliestDue(rows: seq<Row>, now: int, picked: seq<nat>) {
    && |picked| <= CLAIM_LIMIT
    && (forall j :: 0 <= j < |picked| ==> picked[j] < |rows| && Due(rows[picked[j]], now))
    && (forall j, k :: 0 <= j < k < |picked| ==> picked[j] != picked[k])
    && (forall i :: 0 <= i < |rows| && Due(rows[i], now) && i !in picked ==>
          && |picked| == CLAIM_LIMIT
          && forall j :: 0 <= j < |picked| ==> rows[picked[j]].dueAt <= rows[i].dueAt)
  }

  function WithStatus(rows: seq<Row>, picked: seq<nat>, status: Status): (r: seq<Row>)
    requires forall j :: 0 <= j < |picked| ==> picked[j] < |rows|
    ensures |r| == |rows|
    ensures forall i :: 0 <= i < |r| ==> r[i] == if i in picked then rows[i].(status := status) else rows[i]
  {
    seq(|rows|, i requires 0 <= i < |rows| => if i in picked then rows[i].(status := status) else rows[i])
  }

  /** Only `call_webhook` rows can be delivered; any other action type is refused out of hand. */
  function Met(row: Row, outcome: Outcome): Outcome {
    if outcome.Delivered? && row.actionType != "call_webhook" then Refused else outcome
  }

  /** The row after one resolution. */
  function ResolvedRow(row: Row, outcome: Outcome, at: int): Row {
    match outcome
    case Unavailable => row.(status := DeadLetter)
    case Disabled => row.(status := DeadLetter)
    case Delivered => row.(status := Succeeded)
    case Refused =>
      if row.attempt + 1 > row.maxAttempts then row.(status := DeadLetter)
      else row.(status := Pending, attempt := row.attempt + 1, dueAt := at + RetryDelay(row.attempt + 1))
  }

  predicate Executes(outcome: Outcome) {
    outcome.Delivered? || outcome.Refused?
  }

  function Start(now: int): Queue {
    Queue([], [], now, [], now)
  }

  // ── Actions ───────────────────────────────────────────────────────────

  ghost predicate Can(q: Queue, a: Action) {
    && q.now <= a.at
    && match a
       case Enqueue(_, _, _, _) => true
       case Claim(picked, at) => q.work == [] && EarliestDue(q.rows, at, picked)
       case Resolve(_, _) => q.work != [] && q.work[0] < |q.rows|
  }

  function Do(q: Queue, a: Action): Queue
    requires Can(q, a)
  {
    match a
    case Enqueue(automation, actionType, maxAttempts, at) =>
      var row := Row(automation, actionType, 1, maxAttempts, at, at + RetryDelay(1), Pending);
      q.(rows := q.rows + [row], now := at)
    case Claim(picked, at) =>
      q.(rows := WithStatus(q.rows, picked, InProgress), work := picked, claimedAt := at, now := at)
    case Resolve(outcome, at) =>
      var i := q.work[0];
      var met := Met(q.rows[i], outcome);
      Queue(q.rows[i := ResolvedRow(q.rows[i], met, at)], q.work[1..], q.claimedAt,
            if Executes(met) then q.execs + [Exec(i, q.rows[i].attempt, q.claimedAt, at, met.Delivered?)] else q.execs,
            at)
  }

  ghost predicate Legal(q: Queue, acts: seq<Action>)
    decreases |acts|
  {
    acts != [] ==> Can(q, acts[0]) && Legal(Do(q, acts[0]), acts[1..])
  }

  ghost function After(q: Queue, acts: seq<Action>): Queue
    requires Legal(q, acts)
    decreases |acts|
  {
    if acts == [] then q else After(Do(q, acts[0]), acts[1..])
  }

  /** One more legal action extends a run. */
  lemma {:induction false} OneMoreAction(q: Queue, acts: seq<Action>, a: Action)
    requires Legal(q, acts) && Can(After(q, acts), a)
    ensures Legal(q, acts + [a]) && After(q, acts + [a]) == Do(After(q, acts), a)
    decreases |acts|
  {
    if acts == [] {
      JustOne(q, a);
    } else {
      OneMoreAction(Do(q, acts[0]), acts[1..], a);
      assert (acts + [a])[1..] == acts[1..] + [a];
    }
  }

  lemma JustOne(q: Queue, a: Action)
    requires Can(q, a)
    ensures Legal(q, [] + [a]) && After(q, [] + [a]) == Do(q, a)
  {
    assert ([] + [a])[1..] == [];
    assert Legal(Do(q, a), []) && After(Do(q, a), []) == Do(q, a);
  }

  // ── The engine's side of the queue ────────────────────────────────────

  class Worker {
    var rows: seq<Row>
    var work: seq<nat>
    var claimedAt: int
    var execs: seq<Exec>
    var now: int

    ghost function State(): Queue
      reads this
    {
      Queue(rows, work, claimedAt, execs, now)
    }

    constructor (now: int)
      ensures State() == Start(now)
    {
      rows, work, execs := [], [], [];
      this.now, claimedAt := now, now;
    }

    /** `enqueue_retry` with attempt 1, the only way it is called. */
    method EnqueueRetry(automation: nat, actionType: string, maxAttempts: int, at: int)
      requires now <= at
      modifies this
      ensures State() == Do(old(State()), Enqueue(automation, actionType, maxAttempts, at))
    {
      var nextDelay := RetryDelay(1);
      rows := rows + [Row(automation, actionType, 1, maxAttempts, at, at + nextDelay, Pending)];
      now := at;
    }

    /** The earliest due row not yet picked, if any. */
    method NextDue(at: int, picked: seq<nat>) returns (best: Option<nat>)
      ensures best.None? ==> forall i :: 0 <= i < |rows| && Due(rows[i], at) ==> i in picked
      ensures best.Some? ==>
        && best.value < |rows| && Due(rows[best.value], at) && best.value !in picked
        && forall i :: 0 <= i < |rows| && Due(rows[i], at) && i !in picked ==> rows[best.value].dueAt <= rows[i].dueAt
    {
      best := None;
      for i := 0 to |rows|
        invariant best.None? ==> forall k :: 0 <= k < i && Due(rows[k], at) ==> k in picked
        invariant best.Some? ==>
          && best.value < i && Due(rows[best.value], at) && best.value !in picked
          && forall k :: 0 <= k < i && Due(rows[k], at) && k !in picked ==> rows[best.value].dueAt <= rows[k].dueAt
      {
        if Due(rows[i], at) && i !in picked && (best.None? || rows[i].dueAt < rows[best.value].dueAt) {
          best := Some(i);
        }
      }
    }

    /** The inner `SELECT` of the claim. */
    method SelectDue(at: int) returns (picked: seq<nat>)
      ensures EarliestDue(rows, at, picked)
    {
      picked := [];
      var more := true;
      while more && |picked| < CLAIM_LIMIT
        invariant |picked| <= CLAIM_LIMIT
        invariant forall j :: 0 <= j < |picked| ==> picked[j] < |rows| && Due(rows[picked[j]], at)
        invariant forall j, k :: 0 <= j < k < |picked| ==> picked[j] != picked[k]
        invariant forall i, j :: 0 <= i < |rows| && Due(rows[i], at) && i !in picked && 0 <= j < |picked|
                                 ==> rows[picked[j]].dueAt <= rows[i].dueAt
        invariant !more ==> forall i :: 0 <= i < |rows| && Due(rows[i], at) ==> i in picked
        decreases more, CLAIM_LIMIT - |picked|
      {
        var best := NextDue(at, picked);
        if best.None? {
          more := false;
        } else {
          picked := picked + [best.value];
        }
      }
    }

    method ClaimDue(at: int) returns (ghost claim: Action)
      requires now <= at && work == []
      modifies this
      ensures claim.Claim? && claim.at == at && Can(old(State()), claim)
      ensures State() == Do(old(State()), claim)
    {
      var picked := SelectDue(at);
      claim := Claim(picked, at);
      rows := WithStatus(rows, picked, InProgress);
      work, claimedAt, now := picked, at, at;
    }

    /** One turn of the worker's loop over the claimed rows. */
    method ResolveNext(outcome: Outcome, at: int)
      requires Can(State(), Resolve(outcome, at))
      modifies this
      ensures State() == Do(old(State()), Resolve(outcome, at))
    {
      var i := work[0];
      var row := rows[i];
      match if outcome.Delivered? && row.actionType != "call_webhook" then Refused else outcome {
        case Unavailable =>
          rows := rows[i := row.(status := DeadLetter)];
        case Disabled =>
          rows := rows[i := row.(status := DeadLetter)];
        case Delivered =>
          rows := rows[i := row.(status := Succeeded)];
          execs := execs + [Exec(i, row.attempt, claimedAt, at, true)];
        case Refused =>
          execs := execs + [Exec(i, row.attempt, claimedAt, at, false)];
          var nextAttempt := row.attempt + 1;
          if nextAttempt > row.maxAttempts {
            rows := rows[i := row.(status := DeadLetter)];
          } else {
            rows := rows[i := row.(status := Pending, attempt := nextAttempt, dueAt := at + RetryDelay(nextAttempt))];
          }
      }
      work, now := work[1..], at;
    }

    /**
     * `process_retry_queue`: claims, then resolves everything claimed. `env`
     * says what the `n`-th resolution meets and how long it takes.
     */
    method ProcessRetryQueue(at: int, env: nat -> (Outcome, nat)) returns (ghost acts: seq<Action>)
      requires now <= at && work == []
      modifies this
      ensures IsTick(old(State()), State(), at, env, acts) && work == []
    {
      ghost var start := State();
      ghost var claim := ClaimDue(at);
      acts := [] + [claim];
      OneMoreAction(start, [], claim);
      var n: nat := 0;
      while work != []
        invariant n == |acts| - 1
        invariant IsTick(start, State(), at, env, acts)
        invariant forall j :: 0 <= j < |work| ==> work[j] < |rows|
        decreases |work|
      {
        var (outcome, took) := env(n);
        ghost var before := State();
        var done := now + took;
        ResolveNext(outcome, done);
        TickGoesOn(start, before, at, env, acts, outcome, done);
        acts := acts + [Resolve(outcome, done)];
        n := n + 1;
      }
    }
  }

  /** From `start` to `end` by one claim at `at` and then resolutions with the outcomes `env` supplies. */
  ghost predicate IsTick(start: Queue, end: Queue, at: int, env: nat -> (Outcome, nat), acts: seq<Action>) {
    && Legal(start, acts) && end == After(start, acts)
    && acts != [] && acts[0].Claim? && acts[0].at == at
    && forall j :: 0 < j < |acts| ==> acts[j].Resolve? && acts[j].outcome == env(j - 1).0
  }

  lemma TickGoesOn(start: Queue, end: Queue, at: int, env: nat -> (Outcome, nat), acts: seq<Action>,
                   outcome: Outcome, done: int)
    requires IsTick(start, end, at, env, acts) && Can(end, Resolve(outcome, done))
    requires outcome == env(|acts| - 1).0
    ensures IsTick(start, Do(end, Resolve(outcome, done)), at, env, acts + [Resolve(outcome, done)])
  {
    OneMoreAction(start, acts, Resolve(outcome, done));
  }

  // ── Fairness ──────────────────────────────────────────────────────────

  /** The other pending rows that are not later than row `r`. */
  function Ahead(q: Queue, r: nat): set<nat>
    requires r < |q.rows|
  {
    set i | 0 <= i < |q.rows| && i != r && q.rows[i].status.Pending? && q.rows[i].dueAt <= q.rows[r].dueAt
  }

  function ElementsOf(s: seq<nat>): set<nat> {
    set x | x in s
  }

  lemma {:induction false} DistinctCount(s: seq<nat>)
    requires forall j, k :: 0 <= j < k < |s| ==> s[j] != s[k]
    ensures |ElementsOf(s)| == |s|
  {
    if s != [] {
      var front := s[..|s| - 1];
      DistinctCount(front);
      assert ElementsOf(s) == ElementsOf(front) + {s[|s| - 1]};
    }
  }

  /** A due row that a claim passes over moves ten places up; nothing ever moves it back. */
  lemma AheadShrinks(q: Queue, a: Action, r: nat)
    requires Can(q, a) && r < |q.rows| && Due(q.rows[r], q.now) && r !in q.work
    requires !(a.Claim? && r in a.picked)
    ensures var q' := Do(q, a);
            && r < |q'.rows| && q'.rows[r] == q.rows[r] && Due(q'.rows[r], q'.now) && r !in q'.work
            && |Ahead(q', r)| + (if a.Claim? then CLAIM_LIMIT else 0) <= |Ahead(q, r)|
  {
    var q' := Do(q, a);
    match a {
      case Enqueue(_, _, _, _) =>
        assert Ahead(q', r) == Ahead(q, r);
      case Claim(picked, at) =>
        DistinctCount(picked);
        var taken := ElementsOf(picked);
        assert taken <= Ahead(q, r);
        assert Ahead(q', r) == Ahead(q, r) - taken;
      case Resolve(_, _) =>
        assert Ahead(q', r) <= Ahead(q, r);
        CountMonotone(Ahead(q', r), Ahead(q, r));
    }
  }

  lemma CountMonotone(a: set<nat>, b: set<nat>)
    requires a <= b
    ensures |a| <= |b|
  {
    assert b == a + (b - a);
  }

  function Claims(acts: seq<Action>): nat {
    if acts == [] then 0 else (if acts[0].Claim? then 1 else 0) + Claims(acts[1..])
  }

  /**
   * Fairness: a due row with `k` others no later than it is claimed by the
   * time the worker has claimed `k / 10 + 1` times, whatever is enqueued,
   * resolved or rescheduled in between.
   */
  lemma {:induction false} DueRowIsClaimed(q: Queue, acts: seq<Action>, r: nat)
    requires Legal(q, acts) && r < |q.rows| && Due(q.rows[r], q.now) && r !in q.work
    requires Claims(acts) > |Ahead(q, r)| / 10
    ensures exists i :: 0 <= i < |acts| && acts[i].Claim? && r in acts[i].picked
    decreases |acts|
  {
    if acts[0].Claim? && r in acts[0].picked {
    } else {
      AheadShrinks(q, acts[0], r);
      DueRowIsClaimed(Do(q, acts[0]), acts[1..], r);
      var i :| 0 <= i < |acts| - 1 && acts[1..][i].Claim? && r in acts[1..][i].picked;
      assert acts[i + 1] == acts[1..][i];
    }
  }

  // ── Life of a row ─────────────────────────────────────────────────────

  function ExecsOf(execs: seq<Exec>, r: nat): seq<Exec> {
    if execs == [] then []
    else
      var front, last := execs[..|execs| - 1], execs[|execs| - 1];
      ExecsOf(front, r) + if last.row == r then [last] else []
  }

  /** Attempts 1, 2, 3, ..., none of them begun before its accumulated delay has passed. */
  ghost predicate InOrder(done: seq<Exec>, row: Row) {
    forall k :: 0 <= k < |done| ==>
      && done[k].attempt == k + 1
      && done[k].at >= done[k].claimedAt >= row.createdAt + DelaySum(k + 1)
  }

  function AttemptCap(row: Row): int {
    Max(1, row.maxAttempts)
  }

  /** What is known of a row in terms of the deliveries made for it. */
  ghost predicate RowInv(row: Row, done: seq<Exec>, claimedAt: int) {
    && InOrder(done, row)
    && |done| <= AttemptCap(row)
    && (forall k :: 0 <= k < |done| ==> (done[k].delivered <==> row.status.Succeeded? && k == |done| - 1))
    && (row.status.Pending? || row.status.InProgress? ==>
          && row.attempt == |done| + 1
          && row.attempt <= AttemptCap(row)
          && row.dueAt >= row.createdAt + DelaySum(row.attempt))
    && (row.status.InProgress? ==> row.dueAt <= claimedAt)
    && (row.status.Succeeded? ==> |done| > 0)
  }

  /** The worker holds exactly the rows in progress, each once. */
  ghost predicate WorkInv(q: Queue) {
    && (forall j :: 0 <= j < |q.work| ==> q.work[j] < |q.rows|)
    && (forall j, k :: 0 <= j < k < |q.work| ==> q.work[j] != q.work[k])
    && (forall i :: 0 <= i < |q.rows| ==> (q.rows[i].status.InProgress? <==> i in q.work))
    && (forall e :: e in q.execs ==> e.row < |q.rows|)
    && q.claimedAt <= q.now
  }

  ghost predicate RowsInv(q: Queue) {
    forall i :: 0 <= i < |q.rows| ==> RowInv(q.rows[i], ExecsOf(q.execs, i), q.claimedAt)
  }

  ghost predicate Inv(q: Queue) {
    WorkInv(q) && RowsInv(q)
  }

  lemma {:induction false} NoExecsYet(execs: seq<Exec>, r: nat)
    requires forall e :: e in execs ==> e.row < r
    ensures ExecsOf(execs, r) == []
  {
    if execs != [] {
      NoExecsYet(execs[..|execs| - 1], r);
    }
  }

  lemma ExecsOfAppend(execs: seq<Exec>, e: Exec, r: nat)
    ensures ExecsOf(execs + [e], r) == ExecsOf(execs, r) + if e.row == r then [e] else []
  {
    assert (execs + [e])[..|execs|] == execs;
  }

  lemma ResolvedRowInv(row: Row, done: seq<Exec>, claimedAt: int, outcome: Outcome, r: nat, at: int)
    requires RowInv(row, done, claimedAt) && row.status.InProgress? && claimedAt <= at
    ensures RowInv(ResolvedRow(row, outcome, at),
                   if Executes(outcome) then done + [Exec(r, row.attempt, claimedAt, at, outcome.Delivered?)] else done,
                   claimedAt)
  {
  }

  lemma StepKeepsWorkInv(q: Queue, a: Action)
    requires WorkInv(q) && Can(q, a)
    ensures WorkInv(Do(q, a))
  {
    if a.Resolve? {
      assert forall j :: j in q.work <==> j == q.work[0] || j in q.work[1..];
    }
  }

  lemma RowInvAges(row: Row, done: seq<Exec>, claimedAt: int, later: int)
    requires RowInv(row, done, claimedAt) && claimedAt <= later
    ensures RowInv(row, done, later)
  {
  }

  lemma ResolveKeepsRowsInv(q: Queue, outcome: Outcome, at: int)
    requires Inv(q) && Can(q, Resolve(outcome, at))
    ensures RowsInv(Do(q, Resolve(outcome, at)))
  {
    var q', i := Do(q, Resolve(outcome, at)), q.work[0];
    var met := Met(q.rows[i], outcome);
    var e := Exec(i, q.rows[i].attempt, q.claimedAt, at, met.Delivered?);
    forall j | 0 <= j < |q'.rows|
      ensures RowInv(q'.rows[j], ExecsOf(q'.execs, j), q.claimedAt)
    {
      ExecsOfAppend(q.execs, e, j);
      if j == i {
        assert i in q.work;
        ResolvedRowInv(q.rows[i], ExecsOf(q.execs, i), q.claimedAt, met, i, at);
      }
    }
  }

  lemma NewRowInv(automation: nat, actionType: string, maxAttempts: int, at: int, claimedAt: int)
    ensures RowInv(Row(automation, actionType, 1, maxAttempts, at, at + RetryDelay(1), Pending), [], claimedAt)
  {
    assert DelaySum(1) == RetryDelay(1);
  }

  lemma EnqueueKeepsRowsInv(q: Queue, a: Action)
    requires Inv(q) && a.Enqueue? && Can(q, a)
    ensures RowsInv(Do(q, a))
  {
    NoExecsYet(q.execs, |q.rows|);
    NewRowInv(a.automation, a.actionType, a.maxAttempts, a.at, q.claimedAt);
  }

  lemma ClaimedRowInv(row: Row, done: seq<Exec>, claimedAt: int, at: int)
    requires RowInv(row, done, claimedAt) && Due(row, at)
    ensures RowInv(row.(status := InProgress), done, at)
  {
  }

  lemma ClaimKeepsRowsInv(q: Queue, a: Action)
    requires Inv(q) && a.Claim? && Can(q, a)
    ensures RowsInv(Do(q, a))
  {
    var q' := Do(q, a);
    forall i | 0 <= i < |q'.rows|
      ensures RowInv(q'.rows[i], ExecsOf(q.execs, i), a.at)
    {
      if i in a.picked {
        ClaimedRowInv(q.rows[i], ExecsOf(q.execs, i), q.claimedAt, a.at);
      } else {
        RowInvAges(q.rows[i], ExecsOf(q.execs, i), q.claimedAt, a.at);
      }
    }
  }

  lemma StepKeepsInv(q: Queue, a: Action)
    requires Inv(q) && Can(q, a)
    ensures Inv(Do(q, a))
  {
    StepKeepsWorkInv(q, a);
    match a {
      case Enqueue(_, _, _, _) => EnqueueKeepsRowsInv(q, a);
      case Claim(_, _) => ClaimKeepsRowsInv(q, a);
      case Resolve(outcome, at) => ResolveKeepsRowsInv(q, outcome, at);
    }
  }

  lemma {:induction false} RunKeepsInv(q: Queue, acts: seq<Action>)
    requires Inv(q) && Legal(q, acts)
    ensures Inv(After(q, acts))
    decreases |acts|
  {
    if acts != [] {
      StepKeepsInv(q, acts[0]);
      RunKeepsInv(Do(q, acts[0]), acts[1..]);
    }
  }

  lemma StartInv(now: int)
    ensures Inv(Start(now))
  {
  }

  /** The deliveries of a row: how many, which attempts, how early, and which of them went through. */
  ghost predicate DeliveredInOrder(row: Row, done: seq<Exec>) {
    && InOrder(done, row)
    && |done| <= AttemptCap(row)
    && forall k :: 0 <= k < |done| ==> (done[k].delivered <==> row.status.Succeeded? && k == |done| - 1)
  }

  /**
   * Life of a row, on every run from the empty queue: delivered at most
   * `max(1, max_attempts)` times, with attempts 1, 2, 3, ..., each begun no
   * earlier than the sum of the delays before it, and only the last delivery
   * can succeed; between ticks no row is in progress.
   */
  lemma RowLifecycle(now: int, acts: seq<Action>, i: nat)
    requires Legal(Start(now), acts) && i < |After(Start(now), acts).rows|
    ensures var q := After(Start(now), acts);
            && DeliveredInOrder(q.rows[i], ExecsOf(q.execs, i))
            && (q.work == [] ==> !q.rows[i].status.InProgress?)
  {
    StartInv(now);
    RunKeepsInv(Start(now), acts);
    var q := After(Start(now), acts);
    assert RowInv(q.rows[i], ExecsOf(q.execs, i), q.claimedAt);
  }

  /** Every tick ends that way: whatever it claims, it leaves nothing in progress. */
  lemma TickLeavesNothingInProgress(now: int, acts: seq<Action>, q: Queue, at: int, env: nat -> (Outcome, nat),
                                    tick: seq<Action>, i: nat)
    requires Legal(Start(now), acts) && IsTick(After(Start(now), acts), q, at, env, tick) && q.work == []
    requires i < |q.rows|
    ensures !q.rows[i].status.InProgress?
  {
    StartInv(now);
    RunKeepsInv(Start(now), acts);
    RunKeepsInv(After(Start(now), acts), tick);
  }

  predicate Ended(row: Row) {
    row.status.Succeeded? || row.status.DeadLetter?
  }

  lemma StepLeavesEnded(q: Queue, a: Action, r: nat)
    requires Inv(q) && Can(q, a) && r < |q.rows| && Ended(q.rows[r])
    ensures var q' := Do(q, a);
            r < |q'.rows| && q'.rows[r] == q.rows[r] && ExecsOf(q'.execs, r) == ExecsOf(q.execs, r)
  {
    if a.Resolve? {
      var i := q.work[0];
      assert i in q.work && q.rows[i].status.InProgress?;
      ExecsOfAppend(q.execs, Exec(i, q.rows[i].attempt, q.claimedAt, a.at, Met(q.rows[i], a.outcome).Delivered?), r);
    }
  }

  lemma {:induction false} StaysEnded(q: Queue, acts: seq<Action>, r: nat)
    requires Inv(q) && Legal(q, acts) && r < |q.rows| && Ended(q.rows[r])
    ensures var q' := After(q, acts);
            r < |q'.rows| && q'.rows[r] == q.rows[r] && ExecsOf(q'.execs, r) == ExecsOf(q.execs, r)
    decreases |acts|
  {
    if acts != [] {
      StepKeepsInv(q, acts[0]);
      StepLeavesEnded(q, acts[0], r);
      StaysEnded(Do(q, acts[0]), acts[1..], r);
    }
  }

  /** Once succeeded or dead-lettered, a row never changes again and is never delivered again. */
  lemma EndStatesAbsorb(now: int, acts: seq<Action>, more: seq<Action>, r: nat)
    requires Legal(Start(now), acts) && Legal(After(Start(now), acts), more)
    requires var q := After(Start(now), acts); r < |q.rows| && Ended(q.rows[r])
    ensures var q := After(Start(now), acts);
            var q' := After(q, more);
            r < |q'.rows| && q'.rows[r] == q.rows[r] && ExecsOf(q'.execs, r) == ExecsOf(q.execs, r)
  {
    StartInv(now);
    RunKeepsInv(Start(now), acts);
    StaysEnded(After(Start(now), acts), more, r);
  }

  /**
   * A refusal is final exactly at the last attempt, and by then all delays
   * have passed: 12.5 minutes for the default three attempts.
   */
  lemma DeadAfterAllDelays(now: int, acts: seq<Action>, outcome: Outcome, at: int)
    requires Legal(Start(now), acts) && Can(After(Start(now), acts), Resolve(outcome, at))
    requires var q := After(Start(now), acts); Met(q.rows[q.work[0]], outcome).Refused?
    ensures var q := After(Start(now), acts);
            var row, row' := q.rows[q.work[0]], Do(q, Resolve(outcome, at)).rows[q.work[0]];
            && (row'.status.DeadLetter? <==> row.attempt == AttemptCap(row))
            && (row'.status.DeadLetter? ==> at >= row.createdAt + DelaySum(AttemptCap(row)))
            && (row.maxAttempts == 3 ==> DelaySum(AttemptCap(row)) == 750 * SECOND)
  {
    StartInv(now);
    RunKeepsInv(Start(now), acts);
    var q := After(Start(now), acts);
    assert q.work[0] in q.work;
    assert RowInv(q.rows[q.work[0]], ExecsOf(q.execs, q.work[0]), q.claimedAt);
    DelaySumIs(3);
  }
}
