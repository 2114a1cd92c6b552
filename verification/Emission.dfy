/** The daily emission pool: what each completed bounty is paid, and what a day of bounties leaves. */
module Emission {
  import opened Prelude
  import opened Arith

  const BPS: nat := 10_000
  const MAX_BOUNTY_POINTS: nat := 2_000
  const REVIEWER_REWARD: nat := 500
  const EMISSION_CEILING: nat := 16_000

  datatype ContributionType =
    | BugFix | Feature | Documentation | Content | Marketing
    | Support | Translation | Design | Testing | Infrastructure

  function Multiplier(kind: ContributionType): (m: nat)
    ensures 7_000 <= m <= 13_000
  {
    match kind
    case BugFix => 12_000
    case Feature => 10_000
    case Documentation => 8_000
    case Translation => 8_000
    case Content => 9_000
    case Marketing => 9_000
    case Support => 7_000
    case Testing => 11_000
    case Design => 10_000
    case Infrastructure => 13_000
  }

  datatype Award = Award(adjustedPoints: nat, totalPointsToday: u64, contributorTokens: u64,
                         reviewerTokens: u64, totalTokens: u64)

  datatype Outcome = Paid(award: Award) | Invalid | Overflow

  /** `calculate_bounty_award` */
  function BountyAward(raw: u64, kind: ContributionType, pointsToday: u64, emission: u64, distributed: u64): Outcome {
    if raw == 0 || raw > MAX_BOUNTY_POINTS then Invalid
    else
      var adjusted := raw * Multiplier(kind) / BPS;
      AdjustedRange(raw, kind);
      match CheckedAdd(pointsToday, adjusted)
      case None => Overflow
      case Some(total) =>
        var remaining := SaturatingSub(emission, distributed);
        match CheckedMul(adjusted, remaining)
        case None => Overflow
        case Some(numerator) =>
          var tokens := if total > 0 then numerator / total else 0;
          ShareRange(adjusted, remaining, total);
          match CheckedMul(tokens, REVIEWER_REWARD)
          case None => Overflow
          case Some(r) =>
            Paid(Award(adjusted, total, SaturatingSub(tokens, r / BPS), r / BPS, tokens))
  }

  lemma AdjustedRange(raw: u64, kind: ContributionType)
    requires raw <= MAX_BOUNTY_POINTS
    ensures 0 <= raw * Multiplier(kind) / BPS <= 2_600
  {
    MulLe(raw, MAX_BOUNTY_POINTS, Multiplier(kind), 13_000);
    FloorDivMonotone(raw * Multiplier(kind), BPS, 2_600, 1);
  }

  /** A share of the remaining pool is at most the pool. */
  lemma ShareRange(adjusted: nat, remaining: nat, total: nat)
    requires adjusted <= total
    ensures total > 0 ==> 0 <= adjusted * remaining / total <= remaining
  {
    if total > 0 {
      ScaleLe(adjusted, total, remaining);
      AtMostQuotient(0, adjusted * remaining, total);
      FloorDivMonotone(adjusted * remaining, total, remaining, 1);
    }
  }

  // ── A day of bounties ─────────────────────────────────────────────────

  datatype Bounty = Bounty(raw: u64, kind: ContributionType)

  /** The points so far, and what is left of the day's emission. */
  datatype Pool = Pool(points: u64, remaining: u64)

  function AwardFrom(p: Pool, b: Bounty): Outcome {
    BountyAward(b.raw, b.kind, p.points, p.remaining, 0)
  }

  /** A refused bounty leaves the day as it was. */
  function PayOne(p: Pool, b: Bounty): (p': Pool) {
    match AwardFrom(p, b)
    case Paid(a) => AwardFacts(p, b); Pool(a.totalPointsToday, p.remaining - a.totalTokens)
    case _ => p
  }

  /** Only the difference of emission and distributed tokens matters. */
  lemma OnlyRemainingMatters(b: Bounty, points: u64, emission: u64, distributed: u64)
    ensures BountyAward(b.raw, b.kind, points, emission, distributed)
            == AwardFrom(Pool(points, SaturatingSub(emission, distributed)), b)
  {
  }

  /** Reviewer and contributor share what the pool pays, 5% rounded down to the reviewer. */
  lemma AwardFacts(p: Pool, b: Bounty)
    requires AwardFrom(p, b).Paid?
    ensures var a := AwardFrom(p, b).award;
            && a.contributorTokens + a.reviewerTokens == a.totalTokens <= p.remaining
            && a.reviewerTokens * 20 <= a.totalTokens < a.reviewerTokens * 20 + 20
            && a.totalPointsToday == p.points + a.adjustedPoints
            && a.totalTokens * a.totalPointsToday <= a.adjustedPoints * p.remaining
            && (a.totalPointsToday > 0 ==>
                  a.adjustedPoints * p.remaining < a.totalTokens * a.totalPointsToday + a.totalPointsToday)
  {
    var a := AwardFrom(p, b).award;
    AdjustedRange(b.raw, b.kind);
    ShareRange(a.adjustedPoints, p.remaining, a.totalPointsToday);
    ReviewerShare(a.totalTokens);
    if a.totalPointsToday > 0 {
      QuotientBounds(a.adjustedPoints * p.remaining, a.totalPointsToday);
    }
  }

  lemma ReviewerShare(tokens: nat)
    ensures var r := tokens * REVIEWER_REWARD / BPS;
            0 <= r <= tokens && r * 20 <= tokens < r * 20 + 20
  {
  }

  /** What a point of each kind of work counts, in percent. */
  function Percent(kind: ContributionType): nat {
    match kind
    case Infrastructure => 130
    case BugFix => 120
    case Testing => 110
    case Feature => 100
    case Design => 100
    case Content => 90
    case Marketing => 90
    case Documentation => 80
    case Translation => 80
    case Support => 70
  }

  /** Points are weighted by the kind of work and rounded down; a bounty is refused if and only if it has none or over 2000. */
  lemma AwardOutcome(p: Pool, b: Bounty)
    ensures AwardFrom(p, b) == Invalid <==> b.raw == 0 || b.raw > 2_000
    ensures AwardFrom(p, b).Paid? ==> AwardFrom(p, b).award.adjustedPoints == b.raw * Percent(b.kind) / 100
    ensures AwardFrom(p, b) == Overflow ==>
              || p.points + b.raw * Percent(b.kind) / 100 > U64_MAX
              || b.raw * Percent(b.kind) / 100 * p.remaining > U64_MAX
              || 500 * p.remaining > U64_MAX
  {
    if 1 <= b.raw <= MAX_BOUNTY_POINTS {
      AdjustedRange(b.raw, b.kind);
      var adjusted := b.raw * Multiplier(b.kind) / BPS;
      assert Multiplier(b.kind) == 100 * Percent(b.kind);
      assert adjusted == b.raw * Percent(b.kind) / 100;
      if p.points + adjusted > 0 {
        ShareRange(adjusted, p.remaining, p.points + adjusted);
      }
    }
  }

  /** Nothing overflows in a real day: any emission of the schedule, any number of points short of the 64-bit end. */
  lemma ValidBountyIsPaid(p: Pool, b: Bounty)
    requires p.remaining <= EMISSION_CEILING && p.points <= U64_MAX - 2_600
    ensures AwardFrom(p, b).Paid? <==> 1 <= b.raw <= MAX_BOUNTY_POINTS
  {
    if 1 <= b.raw <= MAX_BOUNTY_POINTS {
      AdjustedRange(b.raw, b.kind);
      var adjusted := b.raw * Multiplier(b.kind) / BPS;
      MulLe(adjusted, 2_600, p.remaining, EMISSION_CEILING);
      ShareRange(adjusted, p.remaining, p.points + adjusted);
    }
  }

  /** The pool telescopes: remaining pool times points is kept, up to less than one more token's worth. */
  lemma PoolTelescopes(p: Pool, b: Bounty)
    ensures var p' := PayOne(p, b);
            && p'.remaining <= p.remaining && p.points <= p'.points
            && p.remaining * p.points <= p'.remaining * p'.points
            && p'.remaining * p'.points <= p.remaining * p.points + p'.points
            && (AwardFrom(p, b).Paid? && p'.points > 0 ==>
                  p'.remaining * p'.points < p.remaining * p.points + p'.points)
  {
    if AwardFrom(p, b).Paid? {
      AwardFacts(p, b);
      var a := AwardFrom(p, b).award;
      TelescopeStep(p.remaining, p.points, a.adjustedPoints, a.totalTokens);
    }
  }

  lemma TelescopeStep(remaining: nat, points: nat, adjusted: nat, tokens: nat)
    ensures (remaining - tokens) * (points + adjusted)
            == remaining * points + adjusted * remaining - tokens * (points + adjusted)
  {
    SubMul(remaining, tokens, points + adjusted);
    Distribute(points, adjusted, remaining);
  }

  function PayAll(p: Pool, bounties: seq<Bounty>): Pool
    decreases |bounties|
  {
    if bounties == [] then p else PayAll(PayOne(p, bounties[0]), bounties[1..])
  }

  /** What reviewers and contributors received over a run. */
  function PaidOut(p: Pool, bounties: seq<Bounty>): nat
    decreases |bounties|
  {
    if bounties == [] then 0
    else PaidOut(PayOne(p, bounties[0]), bounties[1..]) +
         match AwardFrom(p, bounties[0])
         case Paid(a) => a.contributorTokens + a.reviewerTokens
         case _ => 0
  }

  /** The day never pays more than its emission: every token paid has left the pool. */
  lemma {:induction false} PaidOutLeavesPool(p: Pool, bounties: seq<Bounty>)
    ensures PaidOut(p, bounties) + PayAll(p, bounties).remaining == p.remaining
    decreases |bounties|
  {
    if bounties != [] {
      if AwardFrom(p, bounties[0]).Paid? {
        AwardFacts(p, bounties[0]);
      }
      PaidOutLeavesPool(PayOne(p, bounties[0]), bounties[1..]);
    }
  }

  /** Remaining pool times points has been kept, up to `n` tokens' worth. */
  ghost predicate Telescoped(p: Pool, e: Pool, n: nat) {
    && p.points <= e.points
    && p.remaining * p.points <= e.remaining * e.points <= p.remaining * p.points + n * e.points
  }

  /**
   * After any day of `n` bounties the remaining pool is
   * `remaining * points / points'`, within `n` tokens.
   */
  lemma {:induction false} DayTelescopes(p: Pool, bounties: seq<Bounty>)
    ensures Telescoped(p, PayAll(p, bounties), |bounties|)
    decreases |bounties|
  {
    if bounties != [] {
      var p' := PayOne(p, bounties[0]);
      PoolTelescopes(p, bounties[0]);
      DayTelescopes(p', bounties[1..]);
      var e := PayAll(p, bounties);
      Distribute(|bounties| - 1, 1, e.points);
    }
  }

  /** The first bounty of an empty day with any points at all takes the whole pool; the rest are paid nothing. */
  lemma {:induction false} FirstTakesAll(p: Pool, b: Bounty, later: seq<Bounty>)
    requires p.points == 0 && AwardFrom(p, b).Paid? && AwardFrom(p, b).award.adjustedPoints > 0
    ensures AwardFrom(p, b).award.totalTokens == p.remaining
    ensures PayOne(p, b).remaining == 0 && PaidOut(PayOne(p, b), later) == 0
  {
    var a := AwardFrom(p, b).award;
    assert a.totalPointsToday == a.adjustedPoints;
    AtMostQuotient(p.remaining, a.adjustedPoints * p.remaining, a.adjustedPoints);
    AwardFacts(p, b);
    PaidOutLeavesPool(PayOne(p, b), later);
  }

  lemma NoPointsNoTokens(p: Pool, b: Bounty)
    requires AwardFrom(p, b).Paid? && AwardFrom(p, b).award.adjustedPoints == 0
    ensures AwardFrom(p, b).award.totalTokens == 0
  {
    var a := AwardFrom(p, b).award;
    AwardFacts(p, b);
    if p.points > 0 {
      CancelRight(a.totalTokens, 0, p.points);
    }
  }

  /** A bounty leaves the day as it was if and only if it is refused or its points round to nothing. */
  lemma WorthlessIff(p: Pool, b: Bounty)
    requires p.remaining <= EMISSION_CEILING && p.points <= U64_MAX - 2_600
    ensures PayOne(p, b) == p <==> !(1 <= b.raw <= MAX_BOUNTY_POINTS) || b.raw * Multiplier(b.kind) < BPS
  {
    ValidBountyIsPaid(p, b);
    if AwardFrom(p, b).Paid? {
      AwardFacts(p, b);
      AtMostQuotient(1, b.raw * Multiplier(b.kind), BPS);
      if AwardFrom(p, b).award.adjustedPoints == 0 {
        NoPointsNoTokens(p, b);
      }
    }
  }

  /** One raw point of support or documentation is such a bounty. */
  lemma SinglePointCanBeWorthless(p: Pool)
    requires p.remaining <= EMISSION_CEILING && p.points <= U64_MAX - 2_600
    ensures PayOne(p, Bounty(1, Support)) == p && PayOne(p, Bounty(1, Documentation)) == p
  {
    WorthlessIff(p, Bounty(1, Support));
    WorthlessIff(p, Bounty(1, Documentation));
  }

  // ── Order within a day ────────────────────────────────────────────────

  function PointsOf(b: Bounty): nat {
    if 1 <= b.raw <= MAX_BOUNTY_POINTS then b.raw * Multiplier(b.kind) / BPS else 0
  }

  function PointSum(bounties: seq<Bounty>): nat {
    if bounties == [] then 0 else PointsOf(bounties[0]) + PointSum(bounties[1..])
  }

  lemma {:induction false} PointsAddUp(p: Pool, bounties: seq<Bounty>)
    requires p.remaining <= EMISSION_CEILING && p.points + PointSum(bounties) <= U64_MAX - 2_600
    ensures PayAll(p, bounties).points == p.points + PointSum(bounties)
    decreases |bounties|
  {
    if bounties != [] {
      ValidBountyIsPaid(p, bounties[0]);
      PoolTelescopes(p, bounties[0]);
      PointsAddUp(PayOne(p, bounties[0]), bounties[1..]);
    }
  }

  lemma {:induction false} PointSumRemove(bounties: seq<Bounty>, i: nat)
    requires i < |bounties|
    ensures PointSum(bounties) == PointsOf(bounties[i]) + PointSum(bounties[..i] + bounties[i + 1..])
  {
    if i == 0 {
      assert bounties[..0] + bounties[1..] == bounties[1..];
    } else {
      PointSumRemove(bounties[1..], i - 1);
      var without := bounties[..i] + bounties[i + 1..];
      assert without[1..] == bounties[1..][..i - 1] + bounties[1..][i..];
    }
  }

  lemma FindAndRemove(a: seq<Bounty>, b: seq<Bounty>) returns (i: nat)
    requires a != [] && multiset(a) == multiset(b)
    ensures i < |b| && b[i] == a[0] && multiset(a[1..]) == multiset(b[..i] + b[i + 1..])
  {
    assert a[0] in multiset(b);
    i :| 0 <= i < |b| && b[i] == a[0];
    assert b == b[..i] + ([b[i]] + b[i + 1..]);
    assert a == [a[0]] + a[1..];
    assert multiset(a[1..]) == multiset(a) - multiset{a[0]};
  }

  lemma {:induction false} PointSumOfPermutation(a: seq<Bounty>, b: seq<Bounty>)
    requires multiset(a) == multiset(b)
    ensures PointSum(a) == PointSum(b)
    decreases |a|
  {
    if a == [] {
      assert |multiset(b)| == 0;
    } else {
      var i := FindAndRemove(a, b);
      PointSumRemove(b, i);
      PointSumOfPermutation(a[1..], b[..i] + b[i + 1..]);
    }
  }

  lemma NearPools(p: Pool, e: Pool, e': Pool, n: nat, m: nat)
    requires Telescoped(p, e, n) && Telescoped(p, e', m) && e.points == e'.points > 0
    ensures e.remaining <= e'.remaining + n
  {
    Distribute(e'.remaining, n, e.points);
    CancelRight(e.remaining, e'.remaining + n, e.points);
  }

  /** A day that starts without points ends with nothing left, or without points. */
  lemma {:induction false} EmptyDayLeaves(p: Pool, bounties: seq<Bounty>)
    requires p.points == 0 && p.remaining <= EMISSION_CEILING && PointSum(bounties) <= U64_MAX - 2_600
    ensures PayAll(p, bounties).remaining == if PointSum(bounties) > 0 then 0 else p.remaining
    decreases |bounties|
  {
    if bounties != [] {
      var b, later := bounties[0], bounties[1..];
      ValidBountyIsPaid(p, b);
      if PointsOf(b) > 0 {
        FirstTakesAll(p, b, later);
        PaidOutLeavesPool(PayOne(p, b), later);
      } else {
        if AwardFrom(p, b).Paid? {
          AwardFacts(p, b);
        }
        EmptyDayLeaves(p, later);
      }
    }
  }

  /**
   * The order of a day's bounties decides who is paid, hardly how much in
   * all: two orders of the same `n` bounties leave pools at most `n` apart,
   * and equal pools if the day started without points.
   */
  lemma OrderMovesAtMostOneTokenEach(p: Pool, a: seq<Bounty>, b: seq<Bounty>)
    requires multiset(a) == multiset(b)
    requires p.remaining <= EMISSION_CEILING && p.points + PointSum(a) <= U64_MAX - 2_600
    ensures PayAll(p, a).remaining <= PayAll(p, b).remaining + |a|
    ensures p.points == 0 ==> PayAll(p, a).remaining == PayAll(p, b).remaining
  {
    PointSumOfPermutation(a, b);
    if p.points == 0 {
      EmptyDayLeaves(p, a);
      EmptyDayLeaves(p, b);
    } else {
      PointsAddUp(p, a);
      PointsAddUp(p, b);
      SamePointsNearPools(p, a, b);
    }
  }

  lemma SamePointsNearPools(p: Pool, a: seq<Bounty>, b: seq<Bounty>)
    requires PayAll(p, a).points == PayAll(p, b).points && p.points > 0
    ensures PayAll(p, a).remaining <= PayAll(p, b).remaining + |a|
  {
    DayTelescopes(p, a);
    DayTelescopes(p, b);
    NearPools(p, PayAll(p, a), PayAll(p, b), |a|, |b|);
  }
}
