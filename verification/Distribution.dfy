/** Sharing out: points into daily token rewards, and a revenue pool among its holders. */
module Distribution {
  import opened Prelude
  import opened Arith

  const BPS: nat := 10_000
  const MIN_STAKE: nat := 100

  datatype Outcome<T> = Ok(value: T) | Invalid | Overflow | NoRevenue | InsufficientStake

  // ── Accumulating points ───────────────────────────────────────────────

  datatype Activity =
    | EmailInvitation | ReferralSignup | PaidConversion | ActiveMonth | SalesSignup
    | BountyCompletion(points: u64)

  function Points(a: Activity): u64 {
    match a
    case EmailInvitation => 1
    case ReferralSignup => 5
    case PaidConversion => 10
    case ActiveMonth => 2
    case SalesSignup => 1
    case BountyCompletion(points) => points
  }

  function Sum(xs: seq<u64>): nat {
    if xs == [] then 0 else Sum(xs[..|xs| - 1]) + xs[|xs| - 1]
  }

  function Capped(n: nat): u64 {
    Min(n, U64_MAX)
  }

  lemma SumAppend(xs: seq<u64>, x: u64)
    ensures Sum(xs + [x]) == Sum(xs) + x
  {
    assert (xs + [x])[..|xs|] == xs;
  }

  function SaturatingMul(a: u64, b: u64): u64 {
    if a * b <= U64_MAX then a * b else U64_MAX
  }

  /** `calculate_referral_points`: saturating at every step is saturating once at the end. */
  function ReferralPoints(emails: u64, signups: u64, conversions: u64, activeMonths: u64): (r: u64)
    ensures r == Capped(emails + 5 * signups + 10 * conversions + 2 * activeMonths)
  {
    SaturatingAdd(SaturatingAdd(SaturatingAdd(
      SaturatingMul(emails, 1), SaturatingMul(signups, 5)), SaturatingMul(conversions, 10)), SaturatingMul(activeMonths, 2))
  }

  function PointsOf(entries: seq<Activity>): (r: seq<u64>)
    ensures |r| == |entries|
  {
    seq(|entries|, i requires 0 <= i < |entries| => Points(entries[i]))
  }

  function BountyPoints(entries: seq<Activity>): nat {
    if entries == [] then 0
    else
      var n := |entries| - 1;
      BountyPoints(entries[..n]) + match entries[n]
        case BountyCompletion(points) => points
        case _ => 0
  }

  /** A total is made of 1 for an invitation or a sale, 2, 5 and 10 for the other referrals, and the points of the bounties. */
  lemma {:induction false} PointsAddUp(entries: seq<Activity>)
    ensures var m := multiset(entries);
            Sum(PointsOf(entries)) == m[EmailInvitation] + m[SalesSignup] + 2 * m[ActiveMonth]
                                      + 5 * m[ReferralSignup] + 10 * m[PaidConversion] + BountyPoints(entries)
  {
    if entries != [] {
      var n := |entries| - 1;
      PointsAddUp(entries[..n]);
      assert entries == entries[..n] + [entries[n]];
      assert PointsOf(entries) == PointsOf(entries[..n]) + [Points(entries[n])];
      SumAppend(PointsOf(entries[..n]), Points(entries[n]));
    }
  }

  lemma {:induction false} NoBountyPoints(entries: seq<Activity>)
    requires forall e :: e in entries ==> !e.BountyCompletion?
    ensures BountyPoints(entries) == 0
  {
    if entries != [] {
      NoBountyPoints(entries[..|entries| - 1]);
    }
  }

  /** Added one by one or counted first, referrals come to the same points. */
  lemma ReferralsCountAlike(entries: seq<Activity>)
    requires |entries| <= U64_MAX && forall e :: e in entries ==> !e.BountyCompletion? && !e.SalesSignup?
    ensures var m := multiset(entries);
            && (forall e :: m[e] <= U64_MAX)
            && Capped(Sum(PointsOf(entries)))
               == ReferralPoints(m[EmailInvitation], m[ReferralSignup], m[PaidConversion], m[ActiveMonth])
  {
    var m := multiset(entries);
    forall e ensures m[e] <= |entries| {
      assert |m| == |entries|;
    }
    PointsAddUp(entries);
    NoBountyPoints(entries);
    assert SalesSignup !in entries;
  }

  class ContributorPoints {
    const id: nat
    var totalPoints: u64
    var entries: seq<Activity>

    /** The running total is the exact total, stopped at the 64-bit end. */
    ghost predicate Valid()
      reads this
    {
      totalPoints == Capped(Sum(PointsOf(entries)))
    }

    constructor (id: nat)
      ensures Valid() && this.id == id && entries == []
    {
      this.id := id;
      totalPoints, entries := 0, [];
    }

    method AddEntry(entry: Activity)
      requires Valid()
      modifies this
      ensures Valid() && entries == old(entries) + [entry]
    {
      totalPoints := SaturatingAdd(totalPoints, Points(entry));
      assert PointsOf(entries + [entry]) == PointsOf(entries) + [Points(entry)];
      SumAppend(PointsOf(entries), Points(entry));
      entries := entries + [entry];
    }
  }

  datatype Snapshot = Snapshot(totalPoints: u64, contributorCount: nat, entries: seq<(nat, u64)>)

  function Earners(contributors: seq<(nat, u64)>): seq<(nat, u64)> {
    if contributors == [] then []
    else
      var last := contributors[|contributors| - 1];
      Earners(contributors[..|contributors| - 1]) + if last.1 > 0 then [last] else []
  }

  /** The second halves of a list of (id, amount) pairs. */
  function Amounts<T>(entries: seq<(nat, T)>): (r: seq<T>)
    ensures |r| == |entries|
  {
    seq(|entries|, i requires 0 <= i < |entries| => entries[i].1)
  }

  lemma AmountsAppend(entries: seq<(nat, u64)>, c: (nat, u64))
    ensures Sum(Amounts(entries + [c])) == Sum(Amounts(entries)) + c.1
  {
    assert Amounts(entries + [c]) == Amounts(entries) + [c.1];
    SumAppend(Amounts(entries), c.1);
  }

  /** `DailyPointsSnapshot::new` on (id, points) pairs. */
  method TakeSnapshot(contributors: seq<(nat, u64)>) returns (s: Snapshot)
    ensures s.entries == Earners(contributors) && s.contributorCount == |s.entries|
    ensures s.totalPoints == Capped(Sum(Amounts(contributors)))
    ensures s.totalPoints == Capped(Sum(Amounts(s.entries)))
  {
    var entries, total := [], 0;
    for i := 0 to |contributors|
      invariant entries == Earners(contributors[..i])
      invariant total == Capped(Sum(Amounts(contributors[..i])))
      invariant total == Capped(Sum(Amounts(entries)))
    {
      var c := contributors[i];
      assert contributors[..i + 1][..i] == contributors[..i];
      assert contributors[..i + 1] == contributors[..i] + [c];
      AmountsAppend(contributors[..i], c);
      if c.1 > 0 {
        AmountsAppend(entries, c);
        entries := entries + [c];
        total := SaturatingAdd(total, c.1);
      }
    }
    assert contributors[..|contributors|] == contributors;
    s := Snapshot(total, |entries|, entries);
  }

  /** The snapshot keeps the contributors with points, each as often as it comes, */
  lemma {:induction false} EarnersAre(contributors: seq<(nat, u64)>, c: (nat, u64))
    ensures multiset(Earners(contributors))[c] == if c.1 > 0 then multiset(contributors)[c] else 0
  {
    if contributors != [] {
      var n := |contributors| - 1;
      EarnersAre(contributors[..n], c);
      assert contributors == contributors[..n] + [contributors[n]];
    }
  }

  /** and in the order they come. */
  lemma {:induction false} EarnersInOrder(some: seq<(nat, u64)>, more: seq<(nat, u64)>)
    ensures Earners(some + more) == Earners(some) + Earners(more)
  {
    if more == [] {
      assert some + more == some;
    } else {
      var n := |more| - 1;
      EarnersInOrder(some, more[..n]);
      assert (some + more)[..|some + more| - 1] == some + more[..n];
    }
  }

  // ── Daily rewards ─────────────────────────────────────────────────────

  /** `calculate_token_reward` */
  function TokenReward(points: u64, total: u64, emission: u64): Outcome<nat> {
    if total == 0 then Invalid
    else match CheckedMul(points, emission)
      case None => Overflow
      case Some(n) => Ok(n / total)
  }

  /** The amounts of all rewards, or the first failure. */
  function Rewards(points: seq<u64>, total: u64, emission: u64): Outcome<seq<nat>> {
    if points == [] then Ok([])
    else
      var n := |points| - 1;
      match Rewards(points[..n], total, emission)
      case Ok(front) =>
        (match TokenReward(points[n], total, emission)
         case Ok(r) => Ok(front + [r])
         case Overflow => Overflow
         case _ => Invalid)
      case failure => failure
  }

  /** `calculate_daily_rewards` */
  method DailyRewards(s: Snapshot, emission: u64) returns (r: Outcome<seq<(nat, nat)>>)
    ensures s.totalPoints == 0 ==> r == Invalid
    ensures s.totalPoints > 0 ==> (r.Ok? <==> Rewards(Amounts(s.entries), s.totalPoints, emission).Ok?) && (r.Ok? || r.Overflow?)
    ensures r.Ok? ==>
      && |r.value| == |s.entries|
      && (forall i :: 0 <= i < |r.value| ==> r.value[i].0 == s.entries[i].0)
      && Rewards(Amounts(s.entries), s.totalPoints, emission) == Ok(Amounts(r.value))
  {
    if s.totalPoints == 0 {
      return Invalid;
    }
    ghost var points := Amounts(s.entries);
    var rewards: seq<(nat, nat)> := [];
    assert points[..0] == [];
    for i := 0 to |s.entries|
      invariant |rewards| == i
      invariant forall j :: 0 <= j < i ==> rewards[j].0 == s.entries[j].0
      invariant Rewards(points[..i], s.totalPoints, emission)
                == Ok(Amounts(rewards))
    {
      assert points[..i + 1][..i] == points[..i];
      var reward := TokenReward(s.entries[i].1, s.totalPoints, emission);
      if !reward.Ok? {
        RewardsFailEarly(points, i + 1, s.totalPoints, emission);
        return Overflow;
      }
      ghost var before := Amounts(rewards);
      rewards := rewards + [(s.entries[i].0, reward.value)];
      assert Amounts(rewards) == before + [reward.value];
    }
    assert points[..|s.entries|] == points;
    return Ok(rewards);
  }

  lemma {:induction false} RewardsFailEarly(points: seq<u64>, i: nat, total: u64, emission: u64)
    requires i <= |points| && !Rewards(points[..i], total, emission).Ok?
    ensures !Rewards(points, total, emission).Ok?
    decreases |points|
  {
    if i == |points| {
      assert points[..i] == points;
    } else {
      var n := |points| - 1;
      assert points[..n][..i] == points[..i];
      RewardsFailEarly(points[..n], i, total, emission);
    }
  }

  /** Every reward is computed, and each on its own, exactly when no product overflows. */
  lemma {:induction false} RewardsOkIff(points: seq<u64>, total: u64, emission: u64)
    requires total > 0
    ensures Rewards(points, total, emission).Ok? <==> forall i :: 0 <= i < |points| ==> points[i] * emission <= U64_MAX
    ensures Rewards(points, total, emission).Ok? ==>
              var r := Rewards(points, total, emission).value;
              |r| == |points| && forall i :: 0 <= i < |r| ==> r[i] == points[i] * emission / total
  {
    if points != [] {
      var front := points[..|points| - 1];
      RewardsOkIff(front, total, emission);
      assert forall i :: 0 <= i < |front| ==> front[i] == points[i];
    }
  }

  function Total(xs: seq<nat>): nat {
    if xs == [] then 0 else Total(xs[..|xs| - 1]) + xs[|xs| - 1]
  }

  lemma TotalAppend(xs: seq<nat>, x: nat)
    ensures Total(xs + [x]) == Total(xs) + x
  {
    assert (xs + [x])[..|xs|] == xs;
  }

  /** `paid` is the `n` shares of `sum` points, each rounded down. */
  ghost predicate RoundedDown(paid: int, sum: int, total: int, emission: int, n: int) {
    paid * total <= sum * emission <= paid * total + n * (total - 1)
  }

  lemma OneMoreReward(paid: int, sum: int, last: nat, total: nat, emission: nat, n: int)
    requires total > 0 && RoundedDown(paid, sum, total, emission, n)
    ensures RoundedDown(paid + last * emission / total, sum + last, total, emission, n + 1)
  {
    var r := last * emission / total;
    QuotientBounds(last * emission, total);
    Distribute(paid, r, total);
    Distribute(sum, last, emission);
    Distribute(n, 1, total - 1);
  }

  lemma {:induction false} RewardSumBounds(points: seq<u64>, total: u64, emission: u64)
    requires total > 0 && Rewards(points, total, emission).Ok?
    ensures RoundedDown(Total(Rewards(points, total, emission).value), Sum(points), total, emission, |points|)
  {
    if points != [] {
      var n := |points| - 1;
      RewardSumBounds(points[..n], total, emission);
      var before, r := Rewards(points[..n], total, emission).value, TokenReward(points[n], total, emission).value;
      assert Rewards(points, total, emission).value == before + [r];
      TotalAppend(before, r);
      OneMoreReward(Total(before), Sum(points[..n]), points[n], total, emission, n);
    }
  }

  /**
   * A day's rewards against an exact point total: never more than the
   * emission, and short of it by less than one token per contributor.
   */
  lemma RewardsExhaustEmission(points: seq<u64>, total: u64, emission: u64)
    requires total > 0 && total == Sum(points) && Rewards(points, total, emission).Ok?
    ensures var paid := Total(Rewards(points, total, emission).value);
            paid <= emission && emission < paid + |points|
  {
    var paid := Total(Rewards(points, total, emission).value);
    RewardSumBounds(points, total, emission);
    assert Sum(points) * emission == emission * total;
    CancelRight(paid, emission, total);
    assert points != [];
    Distribute(paid, |points|, total);
    Distribute(total - 1, 1, |points|);
    if emission >= paid + |points| {
      ScaleLe(paid + |points|, emission, total);
    }
  }

  /** How many entries would be owed a token when the total has saturated. */
  function WholeShares(points: seq<u64>, emission: u64): nat {
    if points == [] then 0
    else WholeShares(points[..|points| - 1], emission) + if points[|points| - 1] * emission == U64_MAX then 1 else 0
  }

  lemma {:induction false} SaturatedRewards(points: seq<u64>, emission: u64)
    requires Rewards(points, U64_MAX, emission).Ok?
    ensures Total(Rewards(points, U64_MAX, emission).value) == WholeShares(points, emission)
  {
    if points != [] {
      var n := |points| - 1;
      SaturatedRewards(points[..n], emission);
      RewardsOkIff(points, U64_MAX, emission);
      var front, r := Rewards(points[..n], U64_MAX, emission).value, points[n] * emission / U64_MAX;
      assert Rewards(points, U64_MAX, emission).value == front + [r];
      TotalAppend(front, r);
      assert r == if points[n] * emission == U64_MAX then 1 else 0;
    }
  }

  /**
   * When the total is the capped one of the snapshot: the rewards stay within
   * the emission if and only if the total did not saturate, or at most
   * `emission` entries are as large as the cap allows.
   */
  lemma RewardsWithinEmissionIff(points: seq<u64>, emission: u64)
    requires Capped(Sum(points)) > 0 && Rewards(points, Capped(Sum(points)), emission).Ok?
    ensures Total(Rewards(points, Capped(Sum(points)), emission).value) <= emission
            <==> Sum(points) <= U64_MAX || WholeShares(points, emission) <= emission
  {
    if Sum(points) <= U64_MAX {
      RewardsExhaustEmission(points, Sum(points), emission);
    } else {
      SaturatedRewards(points, emission);
    }
  }

  /** Two contributors at the cap share an emission of one token, and get one each. */
  lemma SaturationOverpays()
    ensures var points := [U64_MAX, U64_MAX];
            && Rewards(points, Capped(Sum(points)), 1) == Ok([1, 1])
  {
    var points := [U64_MAX, U64_MAX];
    assert points[..1] == [U64_MAX] && points[..1][..0] == [];
    assert Sum(points) == Sum(points[..1]) + U64_MAX;
    RewardsOkIff(points, U64_MAX, 1);
    assert Rewards(points, U64_MAX, 1).value == [1, 1];
  }

  // ── Holder claims ─────────────────────────────────────────────────────

  datatype Claim = Claim(payout: nat, share: nat)

  /** `calculate_holder_claim` */
  function HolderClaim(stake: u64, eligible: u64, pool: u64): Outcome<Claim> {
    if eligible == 0 then NoRevenue
    else if stake < MIN_STAKE then InsufficientStake
    else match CheckedMul(stake, BPS)
      case None => Overflow
      case Some(scaled) =>
        QuotientRange(scaled, eligible);
        match CheckedMul(pool, scaled / eligible)
        case None => Overflow
        case Some(p) => Ok(Claim(p / BPS, scaled / eligible))
  }

  /** What a claim pays; a refused claim pays nothing. */
  function Payout(stake: u64, eligible: u64, pool: u64): nat {
    match HolderClaim(stake, eligible, pool)
    case Ok(c) => PayoutBound(stake, eligible, pool); c.payout
    case _ => 0
  }

  lemma PayoutBound(stake: u64, eligible: u64, pool: u64)
    requires HolderClaim(stake, eligible, pool).Ok?
    ensures var c := HolderClaim(stake, eligible, pool).value;
            && 0 <= c.share && c.share * eligible <= stake * BPS
            && 0 <= c.payout && c.payout * BPS <= pool * c.share
  {
    var c := HolderClaim(stake, eligible, pool).value;
    AtMostQuotient(0, stake * BPS, eligible);
    AtMostQuotient(c.share, stake * BPS, eligible);
    MulLe(0, pool, 0, c.share);
    AtMostQuotient(0, pool * c.share, BPS);
    AtMostQuotient(c.payout, pool * c.share, BPS);
  }

  function PayoutSum(stakes: seq<u64>, eligible: u64, pool: u64): nat {
    if stakes == [] then 0
    else PayoutSum(stakes[..|stakes| - 1], eligible, pool) + Payout(stakes[|stakes| - 1], eligible, pool)
  }

  lemma PayoutAtMostShare(stake: u64, eligible: u64, pool: u64)
    requires eligible > 0
    ensures Payout(stake, eligible, pool) * BPS * eligible <= pool * (stake * BPS)
  {
    MulLe(0, pool, 0, stake * BPS);
    if HolderClaim(stake, eligible, pool).Ok? {
      PayoutBound(stake, eligible, pool);
      var c := HolderClaim(stake, eligible, pool).value;
      ScaleLe(c.payout * BPS, pool * c.share, eligible);
      assert (pool * c.share) * eligible == pool * (c.share * eligible);
      ScaleLe(c.share * eligible, stake * BPS, pool);
    }
  }

  lemma {:induction false} PayoutSumAtMostShare(stakes: seq<u64>, eligible: u64, pool: u64)
    requires eligible > 0
    ensures PayoutSum(stakes, eligible, pool) * BPS * eligible <= pool * (Sum(stakes) * BPS)
  {
    if stakes != [] {
      var n := |stakes| - 1;
      PayoutSumAtMostShare(stakes[..n], eligible, pool);
      PayoutAtMostShare(stakes[n], eligible, pool);
      Distribute(PayoutSum(stakes[..n], eligible, pool) * BPS, Payout(stakes[n], eligible, pool) * BPS, eligible);
      Distribute(Sum(stakes[..n]) * BPS, stakes[n] * BPS, pool);
    }
  }

  /** All holders claiming against the same balance together take no more than the pool. */
  lemma ClaimsStayWithinPool(stakes: seq<u64>, eligible: u64, pool: u64)
    requires Sum(stakes) <= eligible
    ensures PayoutSum(stakes, eligible, pool) <= pool
  {
    if eligible > 0 {
      PayoutSumAtMostShare(stakes, eligible, pool);
      ScaleLe(Sum(stakes) * BPS, eligible * BPS, pool);
      CancelShare(PayoutSum(stakes, eligible, pool), pool, eligible);
    } else {
      NothingToClaim(stakes, pool);
    }
  }

  lemma CancelShare(paid: nat, pool: nat, eligible: nat)
    requires eligible > 0 && paid * BPS * eligible <= pool * (eligible * BPS)
    ensures paid <= pool
  {
    assert pool * (eligible * BPS) == (pool * BPS) * eligible;
    CancelRight(paid * BPS, pool * BPS, eligible);
    CancelRight(paid, pool, BPS);
  }

  lemma {:induction false} NothingToClaim(stakes: seq<u64>, pool: u64)
    ensures PayoutSum(stakes, 0, pool) == 0
  {
    if stakes != [] {
      NothingToClaim(stakes[..|stakes| - 1], pool);
    }
  }

  /** The two flooring divisions of a claim, as one function of the stake. */
  function Floored(stake: nat, eligible: nat, pool: nat): int
    requires eligible > 0
  {
    pool * (stake * BPS / eligible) / BPS
  }

  lemma FlooredAdds(a: nat, b: nat, eligible: nat, pool: nat)
    requires eligible > 0
    ensures 0 <= Floored(a, eligible, pool) && 0 <= Floored(b, eligible, pool)
    ensures Floored(a, eligible, pool) + Floored(b, eligible, pool) <= Floored(a + b, eligible, pool)
  {
    QuotientsAdd(a * BPS, b * BPS, eligible);
    QuotientRange(a * BPS, eligible);
    QuotientRange(b * BPS, eligible);
    var shareA, shareB: nat := a * BPS / eligible, b * BPS / eligible;
    var share := (a + b) * BPS / eligible;
    MulLe(0, pool, 0, shareA);
    MulLe(0, pool, 0, shareB);
    QuotientRange(pool * shareA, BPS);
    QuotientRange(pool * shareB, BPS);
    QuotientsAdd(pool * shareA, pool * shareB, BPS);
    Distribute(shareA, shareB, pool);
    ScaleLe(shareA + shareB, share, pool);
    ScaleLe(pool * (shareA + shareB), pool * share, BPS);
    FloorDivMonotone(pool * (shareA + shareB), BPS, pool * share, BPS);
  }

  /** Neither product of the claim overflows. */
  predicate ClaimFits(stake: nat, eligible: nat, pool: nat)
    requires eligible > 0
  {
    stake * BPS <= U64_MAX && pool * (stake * BPS / eligible) <= U64_MAX
  }

  /** The claim is refused, or rounds to nothing. */
  predicate PaysNothing(stake: nat, eligible: nat, pool: nat)
    requires eligible > 0
  {
    stake < MIN_STAKE || !ClaimFits(stake, eligible, pool) || pool * (stake * BPS / eligible) < BPS
  }

  lemma PayoutIs(stake: u64, eligible: u64, pool: u64)
    requires eligible > 0
    ensures Payout(stake, eligible, pool)
            == if stake >= MIN_STAKE && ClaimFits(stake, eligible, pool) then Floored(stake, eligible, pool) else 0
    ensures Payout(stake, eligible, pool) == 0 <==> PaysNothing(stake, eligible, pool)
  {
    AtMostQuotient(1, pool * (stake * BPS / eligible), BPS);
  }

  lemma NothingEligible(stake: u64, pool: u64)
    ensures Payout(stake, 0, pool) == 0
  {
  }

  lemma SplitOfFitting(a: u64, b: u64, eligible: u64, pool: u64)
    requires eligible > 0 && a + b <= U64_MAX && ClaimFits(a + b, eligible, pool)
    ensures Payout(a, eligible, pool) + Payout(b, eligible, pool) <= Payout(a + b, eligible, pool)
  {
    FlooredAdds(a, b, eligible, pool);
    PayoutIs(a, eligible, pool);
    PayoutIs(b, eligible, pool);
    PayoutIs(a + b, eligible, pool);
  }

  /**
   * Splitting a stake in two never pays more than claiming it whole, if and
   * only if the whole claim does not overflow, or both parts get nothing anyway.
   */
  lemma SplittingNeverPaysIff(a: u64, b: u64, eligible: u64, pool: u64)
    requires a + b <= U64_MAX
    ensures Payout(a, eligible, pool) + Payout(b, eligible, pool) <= Payout(a + b, eligible, pool)
            <==> eligible == 0 || ClaimFits(a + b, eligible, pool)
                 || (PaysNothing(a, eligible, pool) && PaysNothing(b, eligible, pool))
  {
    if eligible == 0 {
      NothingEligible(a, pool);
      NothingEligible(b, pool);
      NothingEligible(a + b, pool);
    } else if ClaimFits(a + b, eligible, pool) {
      SplitOfFitting(a, b, eligible, pool);
    } else {
      PayoutIs(a, eligible, pool);
      PayoutIs(b, eligible, pool);
      PayoutIs(a + b, eligible, pool);
    }
  }

  /** What a claim answers: one of three refusals, or two shares rounded down. */
  lemma ClaimOutcome(stake: u64, eligible: u64, pool: u64)
    ensures var r := HolderClaim(stake, eligible, pool);
            && (r == NoRevenue <==> eligible == 0)
            && (r == InsufficientStake <==> eligible > 0 && stake < 100)
            && (r == Overflow <==> eligible > 0 && stake >= 100 && !ClaimFits(stake, eligible, pool))
            && r != Invalid
            && (r.Ok? ==>
                  && r.value.share * eligible <= stake * 10_000 < (r.value.share + 1) * eligible
                  && r.value.payout * 10_000 <= pool * r.value.share < (r.value.payout + 1) * 10_000)
  {
    var r := HolderClaim(stake, eligible, pool);
    if r.Ok? {
      QuotientBounds(stake * BPS, eligible);
      QuotientBounds(pool * r.value.share, BPS);
      Distribute(r.value.share, 1, eligible);
    }
  }

  /** Claims of no more than what is eligible fit in any pool and total that are not themselves near the 64-bit end. */
  lemma OrdinaryClaimFits(stake: u64, eligible: u64, pool: u64)
    requires 0 < eligible && stake <= eligible && eligible * BPS <= U64_MAX && pool * BPS <= U64_MAX
    ensures ClaimFits(stake, eligible, pool)
  {
    ScaleLe(stake, eligible, BPS);
    FloorDivMonotone(stake * BPS, eligible, BPS, 1);
    ScaleLe(stake * BPS / eligible, BPS, pool);
  }

  /** A pool so large that the whole claim is refused for overflow, while its two halves take all of it. */
  lemma SplittingCanPay()
    ensures var pool: u64 := 2_000_000_000_000_000;
            && Payout(200, 200, pool) == 0
            && Payout(100, 200, pool) + Payout(100, 200, pool) == pool
  {
  }

}
