/**
 * Token decay: the dynamic annual rate, its exact conversion to a daily rate,
 * the per-stake reductions and floors, one day of decay, and runs of days.
 */
module Decay {
  import opened Prelude
  import opened Arith

  const BPS: nat := 10_000
  const TOTAL_SUPPLY: nat := 100_000_000
  const BASE_RATE: nat := 1_000
  const MIN_RATE: nat := 200
  const MAX_RATE: nat := 2_500
  const DEFAULT_RATE: nat := 500
  const PROFIT_MULTIPLIER: nat := 500
  const GRACE_DAYS: nat := 365
  const FIVE_YEARS: nat := 5 * 365
  const BURN_PORTION: nat := 1_000

  // ── The dynamic rate ──────────────────────────────────────────────────

  /** Division truncating toward zero, by a positive divisor. */
  function TruncDiv(a: int, b: int): int
    requires b > 0
  {
    if a >= 0 then a / b else -((-a) / b)
  }

  /** `calculate_dynamic_decay_rate` */
  function DynamicRate(revenue: u64, costs: u64): int {
    if costs == 0 then DEFAULT_RATE
    else
      var profitRatio := TruncDiv((revenue - costs) * 10_000, costs);
      var adjustment := TruncDiv(profitRatio * PROFIT_MULTIPLIER, 10_000);
      Min(Max(BASE_RATE - adjustment, MIN_RATE), MAX_RATE)
  }

  lemma Negated(a: int, b: int)
    ensures (-a) * b == -(a * b)
  {
  }

  lemma TruncDivMonotone(a: int, b: nat, c: int, d: nat)
    requires b > 0 && d > 0 && a * d <= c * b
    ensures TruncDiv(a, b) <= TruncDiv(c, d)
  {
    if 0 <= a {
      ScaleLe(0, a, d);
      CancelRight(0, c, b);
      FloorDivMonotone(a, b, c, d);
    } else {
      AtMostQuotient(0, -a, b);
      if 0 <= c {
        AtMostQuotient(0, c, d);
      } else {
        Negated(a, d);
        Negated(c, b);
        FloorDivMonotone(-c, d, -a, b);
      }
    }
  }

  /** Losses cannot exceed the costs, so the rate stops at 15%: the 25% clamp is never reached. */
  lemma DynamicRateRange(revenue: u64, costs: u64)
    ensures MIN_RATE <= DynamicRate(revenue, costs) <= BASE_RATE + PROFIT_MULTIPLIER
  {
    if costs > 0 {
      TruncDivMonotone(-10_000, 1, (revenue - costs) * 10_000, costs);
      TruncDivMonotone(-500, 1, TruncDiv((revenue - costs) * 10_000, costs) * PROFIT_MULTIPLIER, 10_000);
    }
  }

  /** More revenue never raises the rate, and higher positive costs never lower it. */
  lemma DynamicRateOrder(revenue: u64, costs: u64, revenue': u64, costs': u64)
    requires revenue <= revenue' && 0 < costs' <= costs
    ensures DynamicRate(revenue', costs') <= DynamicRate(revenue, costs)
  {
    var low, high := (revenue - costs) * 10_000, (revenue' - costs') * 10_000;
    MulLe(revenue, revenue', costs', costs);
    assert low * costs' == 10_000 * (revenue * costs') - 10_000 * (costs * costs');
    assert high * costs == 10_000 * (revenue' * costs) - 10_000 * (costs * costs');
    TruncDivMonotone(low, costs, high, costs');
    AdjustmentMonotone(TruncDiv(low, costs), TruncDiv(high, costs'));
  }

  lemma AdjustmentMonotone(ratio: int, ratio': int)
    requires ratio <= ratio'
    ensures TruncDiv(ratio * PROFIT_MULTIPLIER, 10_000) <= TruncDiv(ratio' * PROFIT_MULTIPLIER, 10_000)
  {
    TruncDivMonotone(ratio * PROFIT_MULTIPLIER, 10_000, ratio' * PROFIT_MULTIPLIER, 10_000);
  }

  // ── From annual to daily ──────────────────────────────────────────────

  function Pow(b: nat, e: nat): nat {
    if e == 0 then 1 else b * Pow(b, e - 1)
  }

  /** `n` days at the daily rate `d` leave no more than one year at the annual rate `a`. */
  predicate Enough(a: nat, d: nat, n: nat)
    requires a <= BPS && d <= BPS
  {
    BPS * Pow(BPS - d, n) <= (BPS - a) * Pow(BPS, n)
  }

  function LeastFrom(a: nat, d: nat, n: nat): (r: nat)
    requires a <= BPS && d <= BPS
    ensures d <= r <= BPS
    decreases BPS - d
  {
    if d == BPS || Enough(a, d, n) then d else LeastFrom(a, d + 1, n)
  }

  /**
   * `annual_to_daily_rate_bps` with exact arithmetic in place of `powf`: the
   * ceiling of the root is the least sufficient rate. Above 100% the root is
   * not a number, which the cast turns into 0.
   */
  function DailyRate(a: nat): (r: nat)
    ensures r <= BPS
  {
    if a > BPS then 0 else LeastFrom(a, 0, 365)
  }

  lemma {:induction false} PowOfZero(n: nat)
    requires n > 0
    ensures Pow(0, n) == 0
  {
  }

  lemma {:induction false} LeastFromIsLeast(a: nat, d: nat, n: nat)
    requires a <= BPS && d <= BPS && n > 0
    ensures Enough(a, LeastFrom(a, d, n), n)
    ensures forall e :: d <= e < LeastFrom(a, d, n) ==> !Enough(a, e, n)
    decreases BPS - d
  {
    if d == BPS {
      PowOfZero(n);
    } else if !Enough(a, d, n) {
      LeastFromIsLeast(a, d + 1, n);
    }
  }

  /** The daily rate is the least one whose 365-day compounding removes at least the annual rate. */
  lemma DailyRateIsLeast(a: nat, d: nat)
    requires a <= BPS && d <= BPS
    ensures Enough(a, d, 365) ==> DailyRate(a) <= d
    ensures DailyRate(a) <= d ==> Enough(a, d, 365)
  {
    LeastFromIsLeast(a, 0, 365);
    if DailyRate(a) <= d {
      EnoughUpward(a, DailyRate(a), d, 365);
    }
  }

  lemma {:induction false} PowMonotone(b: nat, c: nat, n: nat)
    requires b <= c
    ensures Pow(b, n) <= Pow(c, n)
  {
    if n > 0 {
      PowMonotone(b, c, n - 1);
      MulLe(b, c, Pow(b, n - 1), Pow(c, n - 1));
    }
  }

  lemma EnoughUpward(a: nat, d: nat, e: nat, n: nat)
    requires a <= BPS && d <= e <= BPS && Enough(a, d, n)
    ensures Enough(a, e, n)
  {
    PowMonotone(BPS - e, BPS - d, n);
  }

  /** Higher annual rates have no lower daily rates, up to and only up to 100%. */
  lemma DailyRateMonotoneIff(a': nat)
    ensures (forall a: nat :: a <= a' ==> DailyRate(a) <= DailyRate(a')) <==> a' <= BPS
  {
    if a' <= BPS {
      forall a: nat | a <= a' ensures DailyRate(a) <= DailyRate(a') {
        DailyRateMonotone(a, a');
      }
    } else {
      DailyRateCoversAnnual(BPS);
      assert BPS <= a' && DailyRate(BPS) > DailyRate(a');
    }
  }

  lemma DailyRateMonotone(a: nat, a': nat)
    requires a <= a' <= BPS
    ensures DailyRate(a) <= DailyRate(a')
  {
    var d := DailyRate(a');
    DailyRateIsLeast(a', d);
    EnoughForLess(a, a', d, 365);
    DailyRateIsLeast(a, d);
  }

  lemma EnoughForLess(a: nat, a': nat, d: nat, n: nat)
    requires a <= a' <= BPS && d <= BPS && Enough(a', d, n)
    ensures Enough(a, d, n)
  {
    MulLe(BPS - a', BPS - a, Pow(BPS, n), Pow(BPS, n));
  }

  lemma {:induction false} PowPositive(b: nat, n: nat)
    requires b > 0
    ensures Pow(b, n) > 0
  {
    if n > 0 {
      PowPositive(b, n - 1);
      assert b * Pow(b, n - 1) > 0;
    }
  }

  lemma BernoulliStep(d: nat, line: int, p: nat, q: nat)
    requires d <= BPS && line <= BPS && line * p <= BPS * q
    ensures (line - d) * (BPS * p) <= BPS * ((BPS - d) * q)
  {
    var keep := BPS - d;
    ScaleLe(line * p, BPS * q, keep);
    assert keep * line - (line - d) * BPS == d * (BPS - line);
    ScaleLe(0, BPS - line, d);
    ScaleLe((line - d) * BPS, keep * line, p);
    assert (line - d) * (BPS * p) == ((line - d) * BPS) * p;
    assert keep * (line * p) == (keep * line) * p;
    assert keep * (BPS * q) == BPS * (keep * q);
  }

  /** Bernoulli: `n` days at rate `d` keep at least what a straight line would. */
  lemma {:induction false} Bernoulli(d: nat, n: nat)
    requires d <= BPS
    ensures (BPS - n * d) * Pow(BPS, n) <= BPS * Pow(BPS - d, n)
  {
    if n > 0 {
      Bernoulli(d, n - 1);
      assert n * d == (n - 1) * d + d;
      BernoulliStep(d, BPS - (n - 1) * d, Pow(BPS, n - 1), Pow(BPS - d, n - 1));
    }
  }

  lemma BernoulliAboveStep(d: nat, line: nat, p: nat, q: nat)
    requires d <= BPS && BPS <= line && q * line <= p * BPS
    ensures ((BPS - d) * q) * (line + d) <= (BPS * p) * BPS
  {
    var keep := BPS - d;
    Distribute(line, d, keep);
    ScaleLe(BPS, line, d);
    assert keep * line == BPS * line - d * line && keep * d == BPS * d - d * d;
    ScaleLe(0, d, d);
    ScaleLe(keep * (line + d), BPS * line, q);
    assert (keep * q) * (line + d) == q * (keep * (line + d));
    assert q * (BPS * line) == BPS * (q * line);
    ScaleLe(q * line, p * BPS, BPS);
  }

  /** The companion of Bernoulli: they keep at most `BPS / (BPS + n d)` of it. */
  lemma {:induction false} BernoulliAbove(d: nat, n: nat)
    requires d <= BPS
    ensures Pow(BPS - d, n) * (BPS + n * d) <= Pow(BPS, n) * BPS
  {
    if n > 0 {
      BernoulliAbove(d, n - 1);
      assert n * d == (n - 1) * d + d;
      BernoulliAboveStep(d, BPS + (n - 1) * d, Pow(BPS, n - 1), Pow(BPS - d, n - 1));
    }
  }

  /** A year of the daily rate, added up, is no less than the annual rate, up to and only up to 100%. */
  lemma DailyRateCoversAnnual(a: nat)
    ensures 365 * DailyRate(a) >= a <==> a <= BPS
  {
    if a <= BPS {
      var d := DailyRate(a);
      DailyRateIsLeast(a, d);
      EnoughCovers(a, d, 365);
    }
  }

  lemma EnoughCovers(a: nat, d: nat, n: nat)
    requires a <= BPS && d <= BPS && Enough(a, d, n)
    ensures n * d >= a
  {
    Bernoulli(d, n);
    PowPositive(BPS, n);
    CancelRight(BPS - n * d, BPS - a, Pow(BPS, n));
  }

  /** `d` is enough as soon as `BPS^2 <= (BPS - a)(BPS + n d)`. */
  lemma EnoughByLine(a: nat, d: nat, n: nat)
    requires a <= BPS && d <= BPS && BPS * BPS <= (BPS - a) * (BPS + n * d)
    ensures Enough(a, d, n)
  {
    var p, q, line := Pow(BPS, n), Pow(BPS - d, n), BPS + n * d;
    BernoulliAbove(d, n);
    assert (BPS * q) * line == BPS * (q * line);
    assert BPS * (q * line) <= BPS * (p * BPS);
    assert BPS * (p * BPS) == (BPS * BPS) * p;
    MulLe(BPS * BPS, (BPS - a) * line, p, p);
    assert ((BPS - a) * line) * p == ((BPS - a) * p) * line;
    CancelRight(BPS * q, (BPS - a) * p, line);
  }

  /** Every annual rate the formula can produce, reduced or not, is one to five basis points a day. */
  lemma DailyRateOneToFive(a: nat)
    requires MIN_RATE <= a <= BASE_RATE + PROFIT_MULTIPLIER
    ensures 1 <= DailyRate(a) <= 5
  {
    DailyRateCoversAnnual(a);
    EnoughByLine(a, 5, 365);
    DailyRateIsLeast(a, 5);
  }

  // ── Reductions and floors ─────────────────────────────────────────────

  datatype VaultTier = NoVault | Bronze | Silver | Gold | Permanent

  function TenureFloor(tenure: nat): (bps: nat)
    ensures 500 <= bps <= 2_500
    ensures tenure >= GRACE_DAYS ==> bps >= 1_000
  {
    var years := tenure / 365;
    if years == 0 then 500 else if years == 1 then 1_000 else if years <= 4 then 1_500 else 2_500
  }

  function TenureReduction(tenure: nat): (bps: nat)
    ensures bps <= 7_000
  {
    var years := tenure / 365;
    if years == 0 then 0 else if years == 1 then 2_000 else if years <= 4 then 4_000 else 7_000
  }

  function VaultReduction(tier: VaultTier): (bps: nat)
    ensures bps <= 9_500
  {
    match tier
    case NoVault => 0
    case Bronze => 2_000
    case Silver => 5_000
    case Gold => 8_000
    case Permanent => 9_500
  }

  /** `x.checked_mul(y).unwrap_or(0) / 10000` */
  function BpsOrZero(x: u64, y: u64): u64 {
    match CheckedMul(x, y)
    case Some(p) => p / BPS
    case None => 0
  }

  /** `effective_annual_rate_bps` */
  function EffectiveRate(base: u64, tenure: nat, tier: VaultTier): (r: u64)
    ensures MIN_RATE <= r <= Max(base, MIN_RATE)
  {
    var afterTenure := BpsOrZero(base, TenureShare(tenure));
    BpsOrZeroShrinks(base, TenureShare(tenure));
    var afterVault := BpsOrZero(afterTenure, VaultShare(tier));
    BpsOrZeroShrinks(afterTenure, VaultShare(tier));
    Max(afterVault, MIN_RATE)
  }

  lemma BpsOrZeroShrinks(x: u64, y: u64)
    requires y <= BPS
    ensures BpsOrZero(x, y) <= x
  {
    assert x * y <= x * BPS;
    FloorDivMonotone(x * y, BPS, x, 1);
  }

  lemma BpsOrZeroMonotone(x: u64, y: u64, x': u64, y': u64)
    requires x <= x' && y <= y' && x' * y' <= U64_MAX
    ensures BpsOrZero(x, y) <= BpsOrZero(x', y')
  {
    MulLe(x, x', y, y');
    FloorDivMonotone(x * y, BPS, x' * y', BPS);
  }

  /** What tenure leaves of a rate. */
  function TenureShare(tenure: nat): (bps: u64)
    ensures 3_000 <= bps <= BPS
  {
    BPS - TenureReduction(tenure)
  }

  /** What a vault leaves of a rate. */
  function VaultShare(tier: VaultTier): (bps: u64)
    ensures 500 <= bps <= BPS
  {
    BPS - VaultReduction(tier)
  }

  lemma ShareFits(base: u64, keep: u64)
    requires base * keep <= U64_MAX
    ensures BpsOrZero(base, keep) * BPS <= base * keep
  {
    AtMostQuotient(BpsOrZero(base, keep), base * keep, BPS);
  }

  /** A lower base, a stronger vault: never a higher effective rate, if the higher base does not overflow. */
  lemma EffectiveRateMonotone(base: u64, base': u64, tenure: nat, tier: VaultTier, tier': VaultTier)
    requires base <= base' && base' * TenureShare(tenure) <= U64_MAX && VaultShare(tier) <= VaultShare(tier')
    ensures EffectiveRate(base, tenure, tier) <= EffectiveRate(base', tenure, tier')
  {
    var keep := TenureShare(tenure);
    ShareFits(base', keep);
    BpsOrZeroMonotone(base, keep, base', keep);
    ScaleLe(VaultShare(tier'), BPS, BpsOrZero(base', keep));
    BpsOrZeroMonotone(BpsOrZero(base, keep), VaultShare(tier), BpsOrZero(base', keep), VaultShare(tier'));
  }

  // ── One day ───────────────────────────────────────────────────────────

  datatype Stake = Stake(tenure: nat, balance: u64, original: u64, tier: VaultTier)

  datatype Skip = Grace | AtFloor | RoundedToZero

  datatype Result = Result(decayed: nat, burned: nat, recycled: nat, newBalance: nat,
                           effectiveRate: nat, skipped: Option<Skip>)

  function FloorAmount(s: Stake): u64 {
    BpsOrZero(s.original, TenureFloor(s.tenure))
  }

  /** What the day would take, were there no floor. */
  function DecayAmount(base: u64, s: Stake): u64 {
    Max(BpsOrZero(s.balance, DailyRate(EffectiveRate(base, s.tenure, s.tier))), 1)
  }

  /** `apply_daily_decay` */
  function Apply(base: u64, s: Stake): Result {
    if s.tenure < GRACE_DAYS then Result(0, 0, 0, s.balance, 0, Some(Grace))
    else if s.balance <= FloorAmount(s) then Result(0, 0, 0, s.balance, 0, Some(AtFloor))
    else
      var effective := EffectiveRate(base, s.tenure, s.tier);
      var newBalance := Max(SaturatingSub(s.balance, DecayAmount(base, s)), FloorAmount(s));
      var decayed := s.balance - newBalance;
      if decayed == 0 then Result(0, 0, 0, s.balance, effective, Some(RoundedToZero))
      else
        var burned := BpsOrZero(decayed, BURN_PORTION);
        Result(decayed, burned, SaturatingSub(decayed, burned), newBalance, effective, None)
  }

  /** Nothing is created or lost in a day, and a day that is not skipped removes at least one token. */
  lemma DayConserves(base: u64, s: Stake)
    ensures var r := Apply(base, s);
            && r.newBalance + r.burned + r.recycled == s.balance
            && r.decayed == r.burned + r.recycled
            && r.burned <= r.recycled
            && (r.skipped.None? <==> r.newBalance < s.balance)
            && r.skipped != Some(RoundedToZero)
            && (r.skipped.None? ==> r.newBalance >= FloorAmount(s))
  {
    var r := Apply(base, s);
    if r.skipped.None? {
      assert r.decayed * BURN_PORTION / BPS <= r.decayed / 2;
    }
  }

  /** At a rate the formula sets, a day takes at most five basis points of the balance, or a single token. */
  lemma DynamicDayIsGentle(revenue: u64, costs: u64, base: u64, s: Stake)
    requires base == DynamicRate(revenue, costs)
    ensures s.balance - Apply(base, s).newBalance <= Max(1, s.balance * 5 / BPS)
  {
    DynamicRateRange(revenue, costs);
    if s.tenure >= GRACE_DAYS && s.balance > FloorAmount(s) {
      var daily := DailyRate(EffectiveRate(base, s.tenure, s.tier));
      DailyRateOneToFive(EffectiveRate(base, s.tenure, s.tier));
      ScaleLe(daily, 5, s.balance);
      FloorDivMonotone(s.balance * daily, BPS, s.balance * 5, BPS);
    }
  }

  // ── Runs of days ──────────────────────────────────────────────────────

  /** What varies from day to day besides the tenure. */
  datatype Day = Day(base: u64, tier: VaultTier)

  datatype Ledger = Ledger(balance: u64, burned: nat, recycled: nat)

  function DayLedger(l: Ledger, original: u64, tenure: nat, day: Day): Ledger {
    var r := Apply(day.base, Stake(tenure, l.balance, original, day.tier));
    DayConserves(day.base, Stake(tenure, l.balance, original, day.tier));
    Ledger(r.newBalance, l.burned + r.burned, l.recycled + r.recycled)
  }

  function RunDays(l: Ledger, original: u64, tenure: nat, days: seq<Day>): Ledger
    decreases |days|
  {
    if days == [] then l
    else RunDays(DayLedger(l, original, tenure, days[0]), original, tenure + 1, days[1..])
  }

  /** A run may be interrupted after its first day, */
  lemma FirstDay(l: Ledger, original: u64, tenure: nat, day: Day, later: seq<Day>)
    ensures RunDays(l, original, tenure, [day] + later)
            == RunDays(RunDays(l, original, tenure, [day]), original, tenure + 1, later)
  {
    var days := [day] + later;
    assert days[0] == day && days[1..] == later && [day][1..] == [];
  }

  /** and after any other. */
  lemma {:induction false} RunDaysConcat(l: Ledger, original: u64, tenure: nat, days: seq<Day>, more: seq<Day>)
    ensures RunDays(l, original, tenure, days + more)
            == RunDays(RunDays(l, original, tenure, days), original, tenure + |days|, more)
    decreases |days|
  {
    if days == [] {
      assert days + more == more;
    } else {
      var first, later := days[0], days[1..];
      assert days == [first] + later && days + more == [first] + (later + more);
      FirstDay(l, original, tenure, first, later);
      FirstDay(l, original, tenure, first, later + more);
      RunDaysConcat(RunDays(l, original, tenure, [first]), original, tenure + 1, later, more);
    }
  }

  /** The simulator's loop: no vault, a fixed base rate, days `0..=days`. */
  method Simulate(original: u64, base: u64, days: nat) returns (balance: u64, burned: nat, recycled: nat)
    ensures Ledger(balance, burned, recycled)
            == RunDays(Ledger(original, 0, 0), original, 0, seq(days + 1, _ => Day(base, NoVault)))
  {
    balance, burned, recycled := original, 0, 0;
    ghost var start, today := Ledger(original, 0, 0), Day(base, NoVault);
    ghost var past: seq<Day> := [];
    var day := 0;
    while day <= days
      invariant day <= days + 1
      invariant past == seq(day, _ => today)
      invariant Ledger(balance, burned, recycled) == RunDays(start, original, 0, past)
    {
      var s := Stake(day, balance, original, NoVault);
      var r := Apply(base, s);
      DayConserves(base, s);
      RunDaysConcat(start, original, 0, past, [today]);
      past := past + [today];
      balance, burned, recycled := r.newBalance, burned + r.burned, recycled + r.recycled;
      day := day + 1;
    }
  }

  /** Conservation over a run: what left the balance was burned or recycled, token by token. */
  lemma {:induction false} RunConserves(l: Ledger, original: u64, tenure: nat, days: seq<Day>)
    ensures var e := RunDays(l, original, tenure, days);
            && e.balance + e.burned + e.recycled == l.balance + l.burned + l.recycled
            && e.balance <= l.balance
    decreases |days|
  {
    if days != [] {
      DayConserves(days[0].base, Stake(tenure, l.balance, original, days[0].tier));
      RunConserves(DayLedger(l, original, tenure, days[0]), original, tenure + 1, days[1..]);
    }
  }

  /** The floor of a stake at a given age. */
  function FloorAt(original: u64, tenure: nat): u64 {
    BpsOrZero(original, TenureFloor(tenure))
  }

  /** The floor of a stake at any age, without the overflow. */
  lemma FloorsRiseTo(original: u64, tenure: nat, later: nat)
    requires original * 2_500 <= U64_MAX && tenure <= later
    ensures FloorAt(original, tenure) <= FloorAt(original, later)
  {
    var years, years' := tenure / 365, later / 365;
    assert years <= years';
    ScaleLe(TenureFloor(later), 2_500, original);
    BpsOrZeroMonotone(original, TenureFloor(tenure), original, TenureFloor(later));
  }

  /** After five years the floor stays, and it is gone if its product overflows. */
  lemma FloorAfterFiveYears(original: u64, tenure: nat)
    requires tenure >= FIVE_YEARS
    ensures FloorAt(original, tenure) == BpsOrZero(original, 2_500)
    ensures original * 2_500 > U64_MAX ==> FloorAt(original, tenure) == 0
  {
    assert tenure / 365 >= 5;
  }

  /** From some age on floors only rise, if and only if no later one overflows, or there is none to begin with. */
  lemma FloorsRiseIff(original: u64, tenure: nat)
    ensures (forall later :: tenure <= later ==> FloorAt(original, tenure) <= FloorAt(original, later))
            <==> original * 2_500 <= U64_MAX || FloorAt(original, tenure) == 0
  {
    if original * 2_500 <= U64_MAX {
      forall later | tenure <= later ensures FloorAt(original, tenure) <= FloorAt(original, later) {
        FloorsRiseTo(original, tenure, later);
      }
    } else {
      var later := tenure + FIVE_YEARS;
      FloorAfterFiveYears(original, later);
      assert tenure <= later;
    }
  }

  lemma FloorAtLeastTenth(original: u64, tenure: nat)
    requires original * 2_500 <= U64_MAX && tenure >= GRACE_DAYS
    ensures FloorAt(original, tenure) >= original / 10
  {
    ScaleLe(TenureFloor(tenure), 2_500, original);
    BpsOrZeroMonotone(original, 1_000, original, TenureFloor(tenure));
    assert original * 1_000 / BPS == original / 10;
  }

  lemma {:induction false} StaysFrozen(l: Ledger, original: u64, tenure: nat, days: seq<Day>)
    requires original * 2_500 <= U64_MAX || l.balance == 0
    requires l.balance <= FloorAt(original, tenure)
    ensures RunDays(l, original, tenure, days) == l
    decreases |days|
  {
    if days != [] {
      if l.balance > 0 {
        FloorsRiseTo(original, tenure, tenure + 1);
      }
      StaysFrozen(l, original, tenure + 1, days[1..]);
    }
  }

  /** The age from which no floor gives way any more. */
  function SettledAge(original: u64): nat {
    if original * 2_500 <= U64_MAX then GRACE_DAYS else FIVE_YEARS
  }

  /** Past that age a stake is at its floor within as many days as it has tokens. */
  lemma {:induction false} FreezesInTime(l: Ledger, original: u64, tenure: nat, days: seq<Day>)
    requires |days| >= SaturatingSub(SettledAge(original), tenure) + l.balance
    ensures RunDays(l, original, tenure, days).balance <= FloorAt(original, tenure + |days|)
    decreases |days|
  {
    if (original * 2_500 <= U64_MAX || l.balance == 0) && l.balance <= FloorAt(original, tenure) {
      StaysFrozen(l, original, tenure, days);
      if l.balance > 0 {
        FloorsRiseTo(original, tenure, tenure + |days|);
      }
    } else {
      var s := Stake(tenure, l.balance, original, days[0].tier);
      DayConserves(days[0].base, s);
      if tenure >= SettledAge(original) && original * 2_500 > U64_MAX {
        FloorAfterFiveYears(original, tenure);
      }
      FreezesInTime(DayLedger(l, original, tenure, days[0]), original, tenure + 1, days[1..]);
    }
  }

  /** With a floor that overflows every stake is gone in time. */
  lemma RunsDry(l: Ledger, original: u64, tenure: nat) returns (days: seq<Day>)
    requires original * 2_500 > U64_MAX
    ensures RunDays(l, original, tenure, days).balance == 0
  {
    days := seq(FIVE_YEARS + l.balance, _ => Day(0, NoVault));
    FreezesInTime(l, original, tenure, days);
    FloorAfterFiveYears(original, tenure + |days|);
  }

  lemma {:induction false} TenthIsKept(l: Ledger, original: u64, tenure: nat, days: seq<Day>)
    requires original * 2_500 <= U64_MAX && l.balance >= original / 10
    ensures RunDays(l, original, tenure, days).balance >= original / 10
    decreases |days|
  {
    if days != [] {
      DayConserves(days[0].base, Stake(tenure, l.balance, original, days[0].tier));
      if tenure >= GRACE_DAYS {
        FloorAtLeastTenth(original, tenure);
      }
      TenthIsKept(DayLedger(l, original, tenure, days[0]), original, tenure + 1, days[1..]);
    }
  }

  /** A tenth of the original balance survives every run, if and only if the largest floor does not overflow. */
  lemma TenthSurvivesIff(l: Ledger, original: u64, tenure: nat)
    requires l.balance >= original / 10
    ensures (forall days :: RunDays(l, original, tenure, days).balance >= original / 10)
            <==> original * 2_500 <= U64_MAX
  {
    if original * 2_500 <= U64_MAX {
      forall days ensures RunDays(l, original, tenure, days).balance >= original / 10 {
        TenthIsKept(l, original, tenure, days);
      }
    } else {
      var days := RunsDry(l, original, tenure);
      assert original / 10 > 0;
      assert RunDays(l, original, tenure, days).balance < original / 10;
    }
  }

  /** At or under its floor a stake never moves again, if and only if the largest floor does not overflow, or nothing is left. */
  lemma FrozenForGoodIff(l: Ledger, original: u64, tenure: nat)
    requires l.balance <= FloorAt(original, tenure)
    ensures (forall days :: RunDays(l, original, tenure, days) == l)
            <==> original * 2_500 <= U64_MAX || l.balance == 0
  {
    if original * 2_500 <= U64_MAX || l.balance == 0 {
      forall days ensures RunDays(l, original, tenure, days) == l {
        StaysFrozen(l, original, tenure, days);
      }
    } else {
      var days := RunsDry(l, original, tenure);
      assert RunDays(l, original, tenure, days) != l;
    }
  }
}
