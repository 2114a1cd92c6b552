/**
 * How much decays: the annual rate against revenue and costs, what tenure and
 * vaults leave of it, what a day takes and where it goes, and what a run of
 * days at one rate leaves, within a token a day.
 */
module DecayAmounts {
  import opened Prelude
  import opened Arith
  import opened Decay

  // ── The annual rate ───────────────────────────────────────────────────

  /** Truncation is off by less than one. */
  lemma TruncIsNear(a: int, b: int)
    requires b > 0
    ensures -b < TruncDiv(a, b) * b - a < b
  {
    if a >= 0 {
      QuotientBounds(a, b);
    } else {
      QuotientBounds(-a, b);
      Negated((-a) / b, b);
    }
  }

  lemma TwoTruncations(ratio: int, adjustment: int, profit: int, costs: int)
    requires costs > 0 && -costs < ratio * costs - profit * 10_000 < costs
    requires -20 < adjustment * 20 - ratio < 20
    ensures -21 * costs < 20 * (adjustment * costs) - 10_000 * profit < 21 * costs
  {
    var gap := adjustment * 20 - ratio;
    Distribute(adjustment * 20 - ratio, ratio, costs);
    ScaleLe(gap, 19, costs);
    ScaleLe(-19, gap, costs);
    assert (adjustment * 20) * costs == 20 * (adjustment * costs);
    assert gap * costs == 20 * (adjustment * costs) - ratio * costs;
    Negated(19, costs);
  }

  /**
   * 10% at break-even, half a percent less for every tenth of profit on costs
   * and more for every tenth of loss, no less than 2%: exact up to 1.05 basis
   * points. Without costs it is 5%.
   */
  lemma DynamicRateTracks(revenue: u64, costs: u64)
    ensures costs == 0 ==> DynamicRate(revenue, costs) == 500
    ensures costs > 0 && DynamicRate(revenue, costs) > 200 ==>
              var gap := DynamicRate(revenue, costs) * costs - (1_500 * costs - 500 * revenue);
              -21 * costs < 20 * gap < 21 * costs
    ensures costs > 0 && DynamicRate(revenue, costs) <= 200 ==>
              DynamicRate(revenue, costs) == 200 && 20 * (1_500 * costs - 500 * revenue) < 4_021 * costs
  {
    if costs > 0 {
      var profit := revenue - costs;
      var ratio := TruncDiv(profit * 10_000, costs);
      var adjustment := TruncDiv(ratio * PROFIT_MULTIPLIER, 10_000);
      TruncIsNear(profit * 10_000, costs);
      TruncIsNear(ratio * PROFIT_MULTIPLIER, 10_000);
      TwoTruncations(ratio, adjustment, profit, costs);
      DynamicRateRange(revenue, costs);
      var exact := 1_000 - adjustment;
      SubMul(1_000, adjustment, costs);
      assert DynamicRate(revenue, costs) == Max(exact, 200);
      if exact <= 200 {
        ScaleLe(exact, 200, costs);
      }
    }
  }

  // ── What tenure and vaults leave ──────────────────────────────────────

  /** By age in days: 5% is safe in the first year, 10% in the second, 15% up to five years, 25% after. */
  lemma SafeShare(tenure: nat)
    ensures TenureFloor(tenure) == if tenure < 365 then 500 else if tenure < 730 then 1_000
                                   else if tenure < 1_825 then 1_500 else 2_500
  {
  }

  /** And the rate is reduced by 0, 20%, 40% and 70%. */
  lemma TenureKeeps(tenure: nat)
    ensures TenureShare(tenure) == if tenure < 365 then 10_000 else if tenure < 730 then 8_000
                                   else if tenure < 1_825 then 6_000 else 3_000
  {
  }

  lemma VaultKeeps()
    ensures VaultShare(NoVault) == 10_000 && VaultShare(Bronze) == 8_000 && VaultShare(Silver) == 5_000
    ensures VaultShare(Gold) == 2_000 && VaultShare(Permanent) == 500
  {
  }

  lemma NestedFloors(x: nat, k: nat, v: nat)
    requires v <= BPS
    ensures x * k / BPS * v / BPS <= x * k * v / (BPS * BPS) <= x * k / BPS * v / BPS + 1
  {
    var inner := x * k / BPS;
    QuotientBounds(x * k, BPS);
    ScaleLe(inner * BPS, x * k, v);
    ScaleLe(x * k, inner * BPS + BPS, v);
    assert inner * BPS * v == (inner * v) * BPS;
    assert (inner * BPS + BPS) * v == (inner * v + v) * BPS;
    FloorDivMonotone(inner * v, BPS, x * k * v, BPS * BPS);
    FloorDivMonotone(x * k * v, BPS * BPS, inner * v + BPS, BPS);
    DivShift(inner * v, 1, BPS);
  }

  /** The effective rate is the base times both shares, rounded down by at most one basis point more, and at least 2%. */
  lemma EffectiveRateIsShare(base: u64, tenure: nat, tier: VaultTier)
    requires base * TenureShare(tenure) <= U64_MAX
    ensures var exact := base * TenureShare(tenure) * VaultShare(tier) / 100_000_000;
            Max(exact - 1, 200) <= EffectiveRate(base, tenure, tier) <= Max(exact, 200)
  {
    var k, v := TenureShare(tenure), VaultShare(tier);
    ShareFits(base, k);
    ScaleLe(v, BPS, BpsOrZero(base, k));
    NestedFloors(base, k, v);
  }

  // ── One day ───────────────────────────────────────────────────────────

  /** Why a day is skipped, and what becomes of what decays: a tenth, rounded down, is burned, the rest recycled. */
  lemma DayReport(base: u64, s: Stake)
    ensures var r := Apply(base, s);
            && (r.skipped == Some(Grace) <==> s.tenure < 365)
            && (r.skipped == Some(AtFloor) <==> s.tenure >= 365 && s.balance <= FloorAmount(s))
            && (r.skipped.Some? ==> r == Result(0, 0, 0, s.balance, 0, r.skipped))
            && (r.skipped.None? ==> r.effectiveRate == EffectiveRate(base, s.tenure, s.tier))
            && (s.balance * BPS <= U64_MAX ==> 10 * r.burned <= r.decayed < 10 * r.burned + 10)
            && r.burned + r.recycled == r.decayed == s.balance - r.newBalance
  {
    DayConserves(base, s);
    var r := Apply(base, s);
    if s.balance * BPS <= U64_MAX && r.skipped.None? {
      MulLe(r.decayed, s.balance, BURN_PORTION, BPS);
    }
  }

  /** Past the grace period a day takes its share rounded down, or one token if that is nothing, but never below the floor. */
  lemma DayTakes(base: u64, s: Stake, d: nat)
    requires s.tenure >= 365 && s.balance > FloorAmount(s) && s.balance * BPS <= U64_MAX
    requires d == DailyRate(EffectiveRate(base, s.tenure, s.tier))
    ensures var left := Apply(base, s).newBalance;
            && left * BPS >= s.balance * (BPS - d) - BPS
            && (left > FloorAmount(s) ==> left * BPS <= s.balance * (BPS - d) + BPS)
  {
    ScaleLe(d, BPS, s.balance);
    QuotientBounds(s.balance * d, BPS);
    BpsOrZeroShrinks(s.balance, d);
    Distribute(BPS - d, d, s.balance);
  }

  // ── A run of days at one rate ─────────────────────────────────────────

  /** Every day is past the grace period and has the same daily rate. */
  predicate AtRate(tenure: nat, days: seq<Day>, d: nat)
    decreases |days|
  {
    days == []
    || (tenure >= 365 && DailyRate(EffectiveRate(days[0].base, tenure, days[0].tier)) == d && AtRate(tenure + 1, days[1..], d))
  }

  /** No day ends at the floor. */
  predicate ClearOfFloor(l: Ledger, original: u64, tenure: nat, days: seq<Day>)
    decreases |days|
  {
    days == []
    || (var next := DayLedger(l, original, tenure, days[0]);
        next.balance > FloorAt(original, tenure) && ClearOfFloor(next, original, tenure + 1, days[1..]))
  }

  lemma OneDayLess(balance: nat, next: nat, end: nat, keep: nat, n: nat, p: nat, q: nat)
    requires keep <= BPS && q <= p
    requires next * BPS <= balance * keep + BPS && end * p <= next * q + n * p
    ensures end * (BPS * p) <= balance * (keep * q) + (n + 1) * (BPS * p)
  {
    ScaleLe(end * p, next * q + n * p, BPS);
    ScaleLe(next * BPS, balance * keep + BPS, q);
    ScaleLe(q, p, BPS);
    assert end * p * BPS == end * (BPS * p) && (n * p) * BPS == n * (BPS * p);
    assert (next * q + n * p) * BPS == (next * BPS) * q + (n * p) * BPS;
    assert (balance * keep + BPS) * q == balance * (keep * q) + BPS * q;
    Distribute(n, 1, BPS * p);
  }

  lemma OneDayMore(balance: nat, next: nat, end: nat, keep: nat, n: nat, p: nat, q: nat)
    requires keep <= BPS && q <= p
    requires balance * keep <= next * BPS + BPS && next * q <= end * p + n * p
    ensures balance * (keep * q) <= end * (BPS * p) + (n + 1) * (BPS * p)
  {
    ScaleLe(next * q, end * p + n * p, BPS);
    ScaleLe(balance * keep, next * BPS + BPS, q);
    ScaleLe(q, p, BPS);
    assert end * p * BPS == end * (BPS * p) && (n * p) * BPS == n * (BPS * p);
    assert (end * p + n * p) * BPS == end * p * BPS + (n * p) * BPS;
    assert (next * BPS + BPS) * q == (next * q) * BPS + BPS * q;
    assert (balance * keep) * q == balance * (keep * q);
    Distribute(n, 1, BPS * p);
  }

  /** The run bounds before a day give those after it. */
  lemma MostAfterDay(balance: nat, next: nat, end: nat, d: nat, n: nat)
    requires d <= BPS && next * BPS <= balance * (BPS - d) + BPS
    requires end * Pow(BPS, n) <= next * Pow(BPS - d, n) + n * Pow(BPS, n)
    ensures end * Pow(BPS, n + 1) <= balance * Pow(BPS - d, n + 1) + (n + 1) * Pow(BPS, n + 1)
  {
    PowMonotone(BPS - d, BPS, n);
    OneDayLess(balance, next, end, BPS - d, n, Pow(BPS, n), Pow(BPS - d, n));
  }

  lemma LeastAfterDay(balance: nat, next: nat, end: nat, d: nat, n: nat)
    requires d <= BPS && balance * (BPS - d) <= next * BPS + BPS
    requires next * Pow(BPS - d, n) <= end * Pow(BPS, n) + n * Pow(BPS, n)
    ensures balance * Pow(BPS - d, n + 1) <= end * Pow(BPS, n + 1) + (n + 1) * Pow(BPS, n + 1)
  {
    PowMonotone(BPS - d, BPS, n);
    OneDayMore(balance, next, end, BPS - d, n, Pow(BPS, n), Pow(BPS - d, n));
  }

  lemma NextFits(l: Ledger, original: u64, tenure: nat, day: Day)
    requires l.balance * BPS <= U64_MAX
    ensures DayLedger(l, original, tenure, day).balance * BPS <= U64_MAX
  {
    DayConserves(day.base, Stake(tenure, l.balance, original, day.tier));
    ScaleLe(DayLedger(l, original, tenure, day).balance, l.balance, BPS);
  }

  lemma FirstDayLeaves(l: Ledger, original: u64, tenure: nat, day: Day, d: nat)
    requires l.balance * BPS <= U64_MAX && d <= BPS && tenure >= 365
    requires DailyRate(EffectiveRate(day.base, tenure, day.tier)) == d
    ensures var left := DayLedger(l, original, tenure, day).balance;
            && l.balance * (BPS - d) <= left * BPS + BPS
            && (left > FloorAt(original, tenure) ==> left * BPS <= l.balance * (BPS - d) + BPS)
    ensures DayLedger(l, original, tenure, day).balance * BPS <= U64_MAX
  {
    var s := Stake(tenure, l.balance, original, day.tier);
    NextFits(l, original, tenure, day);
    DayConserves(day.base, s);
    if l.balance > FloorAmount(s) {
      DayTakes(day.base, s, d);
    } else {
      ScaleLe(BPS - d, BPS, l.balance);
    }
  }

  /**
   * `n` days at the daily rate `d` leave `balance * (1 - d)^n`, give or take
   * `n` tokens: never more than that while no floor is met, and never less.
   */
  lemma {:induction false} RunAtRateLeavesAtLeast(l: Ledger, original: u64, tenure: nat, days: seq<Day>, d: nat)
    requires l.balance * BPS <= U64_MAX && d <= BPS && AtRate(tenure, days, d)
    ensures l.balance * Pow(BPS - d, |days|)
            <= RunDays(l, original, tenure, days).balance * Pow(BPS, |days|) + |days| * Pow(BPS, |days|)
    decreases |days|
  {
    if days != [] {
      var next := DayLedger(l, original, tenure, days[0]);
      FirstDayLeaves(l, original, tenure, days[0], d);
      RunAtRateLeavesAtLeast(next, original, tenure + 1, days[1..], d);
      LeastAfterDay(l.balance, next.balance, RunDays(next, original, tenure + 1, days[1..]).balance, d, |days| - 1);
    }
  }

  lemma {:induction false} RunAtRateLeavesAtMost(l: Ledger, original: u64, tenure: nat, days: seq<Day>, d: nat)
    requires l.balance * BPS <= U64_MAX && d <= BPS && AtRate(tenure, days, d)
    requires ClearOfFloor(l, original, tenure, days)
    ensures RunDays(l, original, tenure, days).balance * Pow(BPS, |days|)
            <= l.balance * Pow(BPS - d, |days|) + |days| * Pow(BPS, |days|)
    decreases |days|
  {
    if days != [] {
      var next := DayLedger(l, original, tenure, days[0]);
      FirstDayLeaves(l, original, tenure, days[0], d);
      RunAtRateLeavesAtMost(next, original, tenure + 1, days[1..], d);
      MostAfterDay(l.balance, next.balance, RunDays(next, original, tenure + 1, days[1..]).balance, d, |days| - 1);
    }
  }

  /** Every day has the same effective annual rate. */
  predicate AtAnnualRate(tenure: nat, days: seq<Day>, a: nat)
    decreases |days|
  {
    days == []
    || (tenure >= 365 && EffectiveRate(days[0].base, tenure, days[0].tier) == a && AtAnnualRate(tenure + 1, days[1..], a))
  }

  lemma {:induction false} AnnualIsDaily(tenure: nat, days: seq<Day>, a: nat)
    requires AtAnnualRate(tenure, days, a)
    ensures AtRate(tenure, days, DailyRate(a))
    decreases |days|
  {
    if days != [] {
      AnnualIsDaily(tenure + 1, days[1..], a);
    }
  }

  lemma YearBound(end: nat, start: nat, a: nat, p: nat, q: nat)
    requires a <= BPS && p > 0 && end * p <= start * q + 365 * p && BPS * q <= (BPS - a) * p
    ensures BPS * end <= (BPS - a) * start + BPS * 365
  {
    ScaleLe(end * p, start * q + 365 * p, BPS);
    ScaleLe(BPS * q, (BPS - a) * p, start);
    assert (start * q + 365 * p) * BPS == start * (BPS * q) + (BPS * 365) * p;
    assert start * ((BPS - a) * p) == ((BPS - a) * start) * p;
    assert end * p * BPS == (BPS * end) * p;
    Distribute((BPS - a) * start, BPS * 365, p);
    CancelRight(BPS * end, (BPS - a) * start + BPS * 365, p);
  }

  /**
   * The promise of the annual rate: a year of days at the effective rate `a`
   * takes at least that share of the stake, short of one token a day, unless
   * the stake meets its floor.
   */
  lemma YearTakesItsRate(l: Ledger, original: u64, tenure: nat, days: seq<Day>, a: nat)
    requires |days| == 365 && l.balance * BPS <= U64_MAX && a <= BPS && AtAnnualRate(tenure, days, a)
    requires ClearOfFloor(l, original, tenure, days)
    ensures BPS * RunDays(l, original, tenure, days).balance <= (BPS - a) * l.balance + BPS * 365
  {
    var d := DailyRate(a);
    AnnualIsDaily(tenure, days, a);
    RunAtRateLeavesAtMost(l, original, tenure, days, d);
    DailyRateIsLeast(a, d);
    PowPositive(BPS, 365);
    YearBound(RunDays(l, original, tenure, days).balance, l.balance, a, Pow(BPS, 365), Pow(BPS - d, 365));
  }
}
