/**
 * What becomes of a retry row at each step of its life, on every run of the
 * queue: what enqueueing and claiming do, and what each answer does to the
 * row, to its deliveries and to the other rows.
 */
module RetryOutcomes {
  import opened Prelude
  import opened RetryQueue

  const WEBHOOK := "call_webhook"

  /** Everything about `q'` that a resolution of row `i` leaves as it was. */
  ghost predicate OnlyTouches(q: Queue, q': Queue, i: nat) {
    && |q'.rows| == |q.rows|
    && (forall j :: 0 <= j < |q.rows| && j != i ==> q'.rows[j] == q.rows[j])
    && q.work != [] && q'.work == q.work[1..] && q'.claimedAt == q.claimedAt
  }

  lemma {:induction false} RowUnderWork(now: int, acts: seq<Action>)
    requires Legal(Start(now), acts) && After(Start(now), acts).work != []
    ensures var q := After(Start(now), acts);
            && q.work[0] < |q.rows|
            && q.rows[q.work[0]].status.InProgress?
            && q.rows[q.work[0]].attempt == |ExecsOf(q.execs, q.work[0])| + 1
  {
    StartInv(now);
    RunKeepsInv(Start(now), acts);
    var q := After(Start(now), acts);
    assert q.work[0] in q.work;
    assert RowInv(q.rows[q.work[0]], ExecsOf(q.execs, q.work[0]), q.claimedAt);
  }

  // ── The answers ───────────────────────────────────────────────────────

  /** A delivered webhook succeeds: its row is done, and one more delivery is on record, the last one and successful. */
  lemma DeliveredWebhookSucceeds(now: int, acts: seq<Action>, at: int)
    requires Legal(Start(now), acts) && Can(After(Start(now), acts), Resolve(Delivered, at))
    requires var q := After(Start(now), acts); q.rows[q.work[0]].actionType == WEBHOOK
    ensures var q := After(Start(now), acts);
            var i, q' := q.work[0], Do(q, Resolve(Delivered, at));
            && q'.rows[i] == q.rows[i].(status := Succeeded)
            && q'.execs == q.execs + [Exec(i, |ExecsOf(q.execs, i)| + 1, q.claimedAt, at, true)]
            && OnlyTouches(q, q', i)
  {
    RowUnderWork(now, acts);
  }

  /** The wait before attempt `n`: 2 minutes, 10 minutes, and then half an hour. */
  function Wait(n: nat): int {
    if n == 2 then 120_000_000 else if n == 3 then 600_000_000 else 1_800_000_000
  }

  /**
   * A failed delivery is on record as such; the row waits for its next
   * attempt, or is dead if it has had all it may have. Anything but a webhook
   * counts as failed whatever comes back.
   */
  lemma RefusedWaitsOrDies(now: int, acts: seq<Action>, outcome: Outcome, at: int)
    requires Legal(Start(now), acts) && Can(After(Start(now), acts), Resolve(outcome, at))
    requires var q := After(Start(now), acts);
             outcome == Refused || (outcome == Delivered && q.rows[q.work[0]].actionType != WEBHOOK)
    ensures var q := After(Start(now), acts);
            var i, q' := q.work[0], Do(q, Resolve(outcome, at));
            var row, tried := q.rows[i], |ExecsOf(q.execs, i)| + 1;
            && q'.execs == q.execs + [Exec(i, tried, q.claimedAt, at, false)]
            && q'.rows[i] == (if tried < row.maxAttempts
                              then row.(status := Pending, attempt := tried + 1, dueAt := at + Wait(tried + 1))
                              else row.(status := DeadLetter))
            && OnlyTouches(q, q', i)
  {
    RowUnderWork(now, acts);
  }

  /** A row whose automation is gone or disabled is dead at once, and nothing is delivered. */
  lemma UnavailableDies(now: int, acts: seq<Action>, outcome: Outcome, at: int)
    requires Legal(Start(now), acts) && Can(After(Start(now), acts), Resolve(outcome, at))
    requires outcome == Unavailable || outcome == Disabled
    ensures var q := After(Start(now), acts);
            var i, q' := q.work[0], Do(q, Resolve(outcome, at));
            && q'.rows[i] == q.rows[i].(status := DeadLetter) && q'.execs == q.execs
            && OnlyTouches(q, q', i)
  {
    RowUnderWork(now, acts);
  }

  // ── Enqueueing and claiming ───────────────────────────────────────────

  /** A new row comes last, pending, for attempt 1 in 30 seconds; nothing else changes but the clock. */
  lemma EnqueuedRow(q: Queue, automation: nat, actionType: string, maxAttempts: int, at: int)
    requires q.now <= at
    ensures var q' := Do(q, Enqueue(automation, actionType, maxAttempts, at));
            && q'.rows == q.rows + [Row(automation, actionType, 1, maxAttempts, at, at + 30_000_000, Pending)]
            && q'.work == q.work && q'.execs == q.execs && q'.claimedAt == q.claimedAt
  {
  }

  function DueRows(q: Queue, at: int): set<nat> {
    set i | 0 <= i < |q.rows| && q.rows[i].status == Pending && q.rows[i].dueAt <= at
  }

  /** A claim takes ten due rows, or all there are, and marks exactly those. */
  lemma ClaimTakesTen(q: Queue, picked: seq<nat>, at: int)
    requires Can(q, Claim(picked, at))
    ensures var q' := Do(q, Claim(picked, at));
            && |picked| == Min(10, |DueRows(q, at)|) == |ElementsOf(picked)|
            && ElementsOf(picked) <= DueRows(q, at)
            && (forall i, j :: i in ElementsOf(picked) && j in DueRows(q, at) - ElementsOf(picked)
                               ==> q.rows[i].dueAt <= q.rows[j].dueAt)
            && |q'.rows| == |q.rows|
            && (forall i :: 0 <= i < |q.rows| ==>
                  q'.rows[i] == if i in ElementsOf(picked) then q.rows[i].(status := InProgress) else q.rows[i])
            && q'.work == picked && q'.execs == q.execs
  {
    DistinctCount(picked);
    CountMonotone(ElementsOf(picked), DueRows(q, at));
    if |picked| < 10 {
      forall i | i in DueRows(q, at) ensures i in ElementsOf(picked) {
        assert Due(q.rows[i], at);
      }
      CountMonotone(DueRows(q, at), ElementsOf(picked));
    }
  }

  // ── Over whole runs ───────────────────────────────────────────────────

  /** What a row is about never changes. */
  predicate SameRow(row: Row, row': Row) {
    && row'.automation == row.automation && row'.actionType == row.actionType
    && row'.maxAttempts == row.maxAttempts && row'.createdAt == row.createdAt
  }

  lemma {:induction false} RowsKeepTheirOrder(q: Queue, acts: seq<Action>, i: nat)
    requires Legal(q, acts) && i < |q.rows|
    ensures i < |After(q, acts).rows| && SameRow(q.rows[i], After(q, acts).rows[i])
    decreases |acts|
  {
    if acts != [] {
      RowsKeepTheirOrder(Do(q, acts[0]), acts[1..], i);
    }
  }

  ghost predicate OnlyWebhooksSucceed(q: Queue) {
    forall i :: 0 <= i < |q.rows| && q.rows[i].status.Succeeded? ==> q.rows[i].actionType == WEBHOOK
  }

  lemma {:induction false} OnlyWebhooksSucceedOn(q: Queue, acts: seq<Action>)
    requires Legal(q, acts) && OnlyWebhooksSucceed(q)
    ensures OnlyWebhooksSucceed(After(q, acts))
    decreases |acts|
  {
    if acts != [] {
      OnlyWebhooksSucceedOn(Do(q, acts[0]), acts[1..]);
    }
  }

  /** A row of any other action type never succeeds. */
  lemma OthersNeverSucceed(now: int, acts: seq<Action>, i: nat)
    requires Legal(Start(now), acts) && i < |After(Start(now), acts).rows|
    requires After(Start(now), acts).rows[i].actionType != WEBHOOK
    ensures !After(Start(now), acts).rows[i].status.Succeeded?
  {
    OnlyWebhooksSucceedOn(Start(now), acts);
  }
}
