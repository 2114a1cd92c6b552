/**
 * Comparing stakes: of two stakes with the same age and original balance, when
 * does the one that is treated no worse keep at least as much, on a day and
 * over a run of days?
 */
module DecayOrder {
  import opened Prelude
  import opened Arith
  import opened Decay

  // ── Rates that can be reached ─────────────────────────────────────────

  /** The least amount of which the share `keep` is `target`. */
  lemma ShareReached(target: nat, keep: nat) returns (amount: nat)
    requires 0 < keep <= BPS
    ensures amount * keep / BPS == target && amount <= target * BPS
  {
    amount := (target * BPS + keep - 1) / keep;
    QuotientBounds(target * BPS + keep - 1, keep);
    AtMostQuotient(target, amount * keep, BPS);
    AtMostQuotient(target + 1, amount * keep, BPS);
    Distribute(target, 1, BPS);
    if amount > target * BPS {
      ScaleLe(target * BPS + 1, amount, keep);
      ScaleLe(1, keep, target * BPS);
      Distribute(target * BPS, 1, keep);
    }
    AtMostQuotient(0, target * BPS + keep - 1, keep);
  }

  /** Whatever the age and the vault, some base rate has the given effective rate. */
  lemma RateReached(target: nat, tenure: nat, tier: VaultTier) returns (base: u64)
    requires MIN_RATE <= target <= BPS
    ensures EffectiveRate(base, tenure, tier) == target
    ensures base * BPS <= U64_MAX
  {
    var afterTenure := ShareReached(target, VaultShare(tier));
    var b := ShareReached(afterTenure, TenureShare(tenure));
    ScaleLe(target, BPS, BPS);
    ScaleLe(afterTenure, BPS * BPS, BPS);
    base := b;
    ScaleLe(TenureShare(tenure), BPS, base);
    ScaleLe(VaultShare(tier), BPS, afterTenure);
    ScaleLe(base, BPS * BPS * BPS, BPS);
  }

  /** More base, a weaker vault: never a lower effective rate, if and only if the base does not overflow. */
  lemma EffectiveRateMonotoneIff(base': u64, tenure: nat, tier': VaultTier)
    ensures (forall base: u64, tier :: base <= base' && VaultShare(tier) <= VaultShare(tier')
                ==> EffectiveRate(base, tenure, tier) <= EffectiveRate(base', tenure, tier'))
            <==> base' * TenureShare(tenure) <= U64_MAX
  {
    if base' * TenureShare(tenure) <= U64_MAX {
      forall base: u64, tier | base <= base' && VaultShare(tier) <= VaultShare(tier')
        ensures EffectiveRate(base, tenure, tier) <= EffectiveRate(base', tenure, tier')
      {
        EffectiveRateMonotone(base, base', tenure, tier, tier');
      }
    } else {
      OverflowIsMinimal(base', tenure, tier');
      var base := RateReached(BPS, tenure, tier');
      SmallerThanOverflow(base, base', tenure);
      assert EffectiveRate(base, tenure, tier') > EffectiveRate(base', tenure, tier');
    }
  }

  lemma OverflowIsMinimal(base: u64, tenure: nat, tier: VaultTier)
    requires base * TenureShare(tenure) > U64_MAX
    ensures EffectiveRate(base, tenure, tier) == MIN_RATE
  {
  }

  lemma SmallerThanOverflow(base: u64, base': u64, tenure: nat)
    requires base * BPS <= U64_MAX < base' * TenureShare(tenure)
    ensures base <= base'
  {
    if base' < base {
      MulLe(base', base, TenureShare(tenure), BPS);
    }
  }

  // ── The daily rates at three annual ones ──────────────────────────────

  lemma DailyRateAtMinimum()
    ensures DailyRate(MIN_RATE) == 1
  {
    DailyRateCoversAnnual(MIN_RATE);
    EnoughByLine(MIN_RATE, 1, 365);
    DailyRateIsLeast(MIN_RATE, 1);
  }

  lemma DailyRateAtTwiceMinimum()
    ensures DailyRate(2 * MIN_RATE) == 2
  {
    DailyRateCoversAnnual(2 * MIN_RATE);
    EnoughByLine(2 * MIN_RATE, 2, 365);
    DailyRateIsLeast(2 * MIN_RATE, 2);
  }

  /** Losing everything in a year takes losing everything in a day. */
  lemma DailyRateAtWhole()
    ensures DailyRate(BPS) == BPS
  {
    var d := DailyRate(BPS);
    DailyRateIsLeast(BPS, d);
    if d < BPS {
      PowPositive(BPS - d, 365);
    }
  }

  // ── One day ───────────────────────────────────────────────────────────

  /** `s` is of the age and size of `s'`, holds no less, and has no higher base rate and no weaker vault. */
  predicate NoWorseOff(base: u64, s: Stake, base': u64, s': Stake) {
    && s.tenure == s'.tenure && s.original == s'.original
    && s'.balance <= s.balance && base <= base' && VaultShare(s.tier) <= VaultShare(s'.tier)
  }

  /** The rate is not above 100%, and neither it nor the day's product overflows. */
  predicate Sound(base: u64, s: Stake) {
    if base * TenureShare(s.tenure) <= U64_MAX then
      var e := EffectiveRate(base, s.tenure, s.tier);
      e <= BPS && s.balance * DailyRate(e) <= U64_MAX
    else s.balance * 2 > U64_MAX
  }

  /** The day leaves the stake alone or at its floor, or takes what its rate says. */
  predicate TakesEnough(base: u64, s: Stake) {
    s.tenure < GRACE_DAYS || Apply(base, s).newBalance <= FloorAmount(s) || Sound(base, s)
  }

  /** What `y` keeps at the rate `d` is no less than what `x` keeps at `d'`. */
  lemma KeptIsMonotone(x: u64, d': nat, y: u64, d: nat)
    requires x <= y && d <= BPS && d' <= BPS
    requires (d <= d' && x * d' <= U64_MAX) || y * d > U64_MAX
    ensures SaturatingSub(x, Max(BpsOrZero(x, d'), 1)) <= SaturatingSub(y, Max(BpsOrZero(y, d), 1))
  {
    if y * d <= U64_MAX {
      BpsOrZeroShrinks(x, d');
      ScaleLe(d, d', y);
      FloorDivMonotone(y * d, BPS, y * d', BPS);
      Distribute(x, y - x, d');
      ScaleLe(d', BPS, y - x);
      FloorDivMonotone(y * d', BPS, x * d' + (y - x) * BPS, BPS);
      DivShift(x * d', y - x, BPS);
    }
  }

  lemma AmountsKeepOrder(base: u64, s: Stake, base': u64, s': Stake)
    requires NoWorseOff(base, s, base', s') && Sound(base', s')
    ensures SaturatingSub(s'.balance, DecayAmount(base', s')) <= SaturatingSub(s.balance, DecayAmount(base, s))
  {
    var e, e' := EffectiveRate(base, s.tenure, s.tier), EffectiveRate(base', s'.tenure, s'.tier);
    var d, d' := DailyRate(e), DailyRate(e');
    if base' * TenureShare(s.tenure) <= U64_MAX {
      EffectiveRateMonotone(base, base', s.tenure, s.tier, s'.tier);
      DailyRateMonotone(e, e');
    } else {
      OverflowIsMinimal(base', s.tenure, s'.tier);
      DailyRateAtMinimum();
      if d > d' {
        MulLe(s'.balance, s.balance, 2, d);
      }
    }
    KeptIsMonotone(s'.balance, d', s.balance, d);
  }

  lemma NeverBelowFloor(base: u64, s: Stake, floor: nat)
    requires floor <= FloorAmount(s) && floor <= s.balance
    ensures floor <= Apply(base, s).newBalance
  {
    DayConserves(base, s);
  }

  lemma DayKeepsOrder(base: u64, s: Stake, base': u64, s': Stake)
    requires NoWorseOff(base, s, base', s') && TakesEnough(base', s')
    ensures Apply(base', s').newBalance <= Apply(base, s).newBalance
  {
    DayConserves(base', s');
    if s.tenure >= GRACE_DAYS {
      var left := Apply(base', s').newBalance;
      if left <= FloorAmount(s') {
        NeverBelowFloor(base, s, left);
      } else {
        AmountsKeepOrder(base, s, base', s');
      }
    }
  }

  /** A stake like `s` that loses more on a day that takes too little. */
  lemma TakesMore(base: u64, s: Stake) returns (less: u64)
    requires !TakesEnough(base, s)
    ensures less <= base && Apply(less, s).newBalance < Apply(base, s).newBalance
  {
    var e := EffectiveRate(base, s.tenure, s.tier);
    DailyRateAtMinimum();
    assert EffectiveRate(0, s.tenure, s.tier) == MIN_RATE;
    if base * TenureShare(s.tenure) <= U64_MAX {
      assert DecayAmount(base, s) == 1;
      if e <= BPS || s.balance * BPS > U64_MAX {
        ScaleLe(DailyRate(e), BPS, s.balance);
        less := 0;
      } else {
        less := WholeRate(s.tenure, s.tier);
        if base < less {
          ScaleLe(TenureShare(s.tenure), BPS, less);
          EffectiveRateMonotone(base, less, s.tenure, s.tier, s.tier);
        }
      }
    } else {
      OverflowIsMinimal(base, s.tenure, s.tier);
      if s.balance * BPS > U64_MAX {
        less := RateReached(2 * MIN_RATE, s.tenure, s.tier);
        DailyRateAtTwiceMinimum();
        DoubleTakesMore(s.balance);
      } else {
        less := WholeRate(s.tenure, s.tier);
      }
      SmallerThanOverflow(less, base, s.tenure);
    }
  }

  lemma DoubleTakesMore(balance: u64)
    requires balance * 2 <= U64_MAX < balance * BPS
    ensures BpsOrZero(balance, 1) > 1 && BpsOrZero(balance, 2) > BpsOrZero(balance, 1)
  {
  }

  /** A base rate at which a day takes everything. */
  lemma WholeRate(tenure: nat, tier: VaultTier) returns (base: u64)
    ensures base * BPS <= U64_MAX && EffectiveRate(base, tenure, tier) == BPS
    ensures forall balance: u64 :: balance * BPS <= U64_MAX ==> BpsOrZero(balance, DailyRate(BPS)) == balance
  {
    base := RateReached(BPS, tenure, tier);
    DailyRateAtWhole();
  }

  /**
   * Exactly when a day keeps the order: a stake is not overtaken by any that
   * is treated no worse, if and only if the day takes enough of it.
   */
  lemma DayKeepsOrderIff(base': u64, s': Stake)
    ensures (forall base: u64, s :: NoWorseOff(base, s, base', s') ==> Apply(base', s').newBalance <= Apply(base, s).newBalance)
            <==> TakesEnough(base', s')
  {
    if TakesEnough(base', s') {
      forall base: u64, s | NoWorseOff(base, s, base', s')
        ensures Apply(base', s').newBalance <= Apply(base, s).newBalance
      {
        DayKeepsOrder(base, s, base', s');
      }
    } else {
      var base := TakesMore(base', s');
      assert NoWorseOff(base, s', base', s');
    }
  }

  // ── Runs of days ──────────────────────────────────────────────────────

  /** Day by day, `better` has no higher base rate and no weaker vault than `worse`. */
  ghost predicate NoWorse(better: seq<Day>, worse: seq<Day>) {
    && |better| == |worse|
    && forall i :: 0 <= i < |better| ==>
         better[i].base <= worse[i].base && VaultShare(better[i].tier) <= VaultShare(worse[i].tier)
  }

  /** Every day of the run takes enough of what is then left. */
  predicate AllTakeEnough(l: Ledger, original: u64, tenure: nat, days: seq<Day>)
    decreases |days|
  {
    days == []
    || (TakesEnough(days[0].base, Stake(tenure, l.balance, original, days[0].tier))
        && AllTakeEnough(DayLedger(l, original, tenure, days[0]), original, tenure + 1, days[1..]))
  }

  lemma {:induction false} BetterStaysAhead(l: Ledger, l': Ledger, original: u64, tenure: nat,
                                            better: seq<Day>, worse: seq<Day>)
    requires l'.balance <= l.balance && NoWorse(better, worse) && AllTakeEnough(l', original, tenure, worse)
    ensures RunDays(l', original, tenure, worse).balance <= RunDays(l, original, tenure, better).balance
    decreases |better|
  {
    if better != [] {
      var day, day' := better[0], worse[0];
      DayKeepsOrder(day.base, Stake(tenure, l.balance, original, day.tier),
                    day'.base, Stake(tenure, l'.balance, original, day'.tier));
      BetterStaysAhead(DayLedger(l, original, tenure, day), DayLedger(l', original, tenure, day'),
                       original, tenure + 1, better[1..], worse[1..]);
    }
  }

  lemma {:induction false} EnoughOnPrefix(l: Ledger, original: u64, tenure: nat, days: seq<Day>, n: nat)
    requires n <= |days| && AllTakeEnough(l, original, tenure, days)
    ensures AllTakeEnough(l, original, tenure, days[..n])
    decreases n
  {
    if n > 0 {
      EnoughOnPrefix(DayLedger(l, original, tenure, days[0]), original, tenure + 1, days[1..], n - 1);
      assert days[..n][1..] == days[1..][..n - 1];
    }
  }

  lemma OneDay(l: Ledger, original: u64, tenure: nat, day: Day)
    ensures RunDays(l, original, tenure, [day]) == DayLedger(l, original, tenure, day)
  {
    assert [day][1..] == [];
  }

  /** Where a run takes too little, the same stake with a lower base rate on one day falls behind. */
  lemma {:induction false} FallsBehind(l: Ledger, original: u64, tenure: nat, worse: seq<Day>)
    returns (n: nat, better: seq<Day>)
    requires !AllTakeEnough(l, original, tenure, worse)
    ensures n <= |worse| && NoWorse(better, worse[..n])
    ensures RunDays(l, original, tenure, better).balance < RunDays(l, original, tenure, worse[..n]).balance
    decreases |worse|
  {
    var day := worse[0];
    var s := Stake(tenure, l.balance, original, day.tier);
    if TakesEnough(day.base, s) {
      var next := DayLedger(l, original, tenure, day);
      var m, rest := FallsBehind(next, original, tenure + 1, worse[1..]);
      n, better := m + 1, [day] + rest;
      assert worse[..n] == [day] + worse[1..][..m];
      FirstDay(l, original, tenure, day, rest);
      FirstDay(l, original, tenure, day, worse[1..][..m]);
      OneDay(l, original, tenure, day);
    } else {
      var less := TakesMore(day.base, s);
      n, better := 1, [Day(less, day.tier)];
      assert worse[..1] == [day];
      OneDay(l, original, tenure, day);
      OneDay(l, original, tenure, better[0]);
    }
  }

  /** No stake that starts with no less and is never treated worse is ever behind. */
  ghost predicate NeverOvertaken(l': Ledger, original: u64, tenure: nat, worse: seq<Day>) {
    forall l: Ledger, better, n: nat :: n <= |worse| && l'.balance <= l.balance && NoWorse(better, worse[..n]) ==>
      RunDays(l', original, tenure, worse[..n]).balance <= RunDays(l, original, tenure, better).balance
  }

  /**
   * Comparison over whole runs: a stake is never overtaken by one that starts
   * with no less and is never treated worse, if and only if each of its days
   * takes enough.
   */
  lemma BetterStakeStaysAheadIff(l': Ledger, original: u64, tenure: nat, worse: seq<Day>)
    ensures NeverOvertaken(l', original, tenure, worse) <==> AllTakeEnough(l', original, tenure, worse)
  {
    if AllTakeEnough(l', original, tenure, worse) {
      forall l: Ledger, better, n: nat | n <= |worse| && l'.balance <= l.balance && NoWorse(better, worse[..n])
        ensures RunDays(l', original, tenure, worse[..n]).balance <= RunDays(l, original, tenure, better).balance
      {
        EnoughOnPrefix(l', original, tenure, worse, n);
        BetterStaysAhead(l, l', original, tenure, better, worse[..n]);
      }
    } else {
      var n, better := FallsBehind(l', original, tenure, worse);
      assert l'.balance <= l'.balance && NoWorse(better, worse[..n]);
    }
  }

  /** In practice every day does: balances below a ten-thousandth of the 64-bit range, base rates up to 125%. */
  lemma {:induction false} OrdinaryDaysTakeEnough(l: Ledger, original: u64, tenure: nat, days: seq<Day>)
    requires l.balance * BPS <= U64_MAX && forall day :: day in days ==> day.base <= 12_500
    ensures AllTakeEnough(l, original, tenure, days)
    decreases |days|
  {
    if days != [] {
      var day := days[0];
      var s := Stake(tenure, l.balance, original, day.tier);
      OrdinaryDayTakesEnough(day.base, s);
      DayConserves(day.base, s);
      var next := DayLedger(l, original, tenure, day);
      ScaleLe(next.balance, l.balance, BPS);
      OrdinaryDaysTakeEnough(next, original, tenure + 1, days[1..]);
    }
  }

  lemma OrdinaryDayTakesEnough(base: u64, s: Stake)
    requires s.balance * BPS <= U64_MAX && base <= 12_500
    ensures TakesEnough(base, s)
  {
    if s.tenure >= GRACE_DAYS {
      var keep := TenureShare(s.tenure);
      assert keep <= 8_000;
      MulLe(base, 12_500, keep, 8_000);
      BpsOrZeroMonotone(base, keep, 12_500, 8_000);
      BpsOrZeroShrinks(BpsOrZero(base, keep), VaultShare(s.tier));
      ScaleLe(DailyRate(EffectiveRate(base, s.tenure, s.tier)), BPS, s.balance);
    }
  }

  /** Any amount up to the total supply is that small. */
  lemma SupplyFits(amount: u64)
    requires amount <= TOTAL_SUPPLY
    ensures amount * BPS <= U64_MAX && amount * 2_500 <= U64_MAX
  {
  }

  /**
   * A base rate of 200% is an effective 160% for a stake in its second year,
   * whose daily rate is 0: it loses one token, where 10% would take a share.
   */
  lemma TooHighHardlyDecays(balance: u64)
    requires 2_000_000 <= balance <= TOTAL_SUPPLY
    ensures var s := Stake(400, balance, balance, NoVault);
            Apply(20_000, s).newBalance == balance - 1 && Apply(1_000, s).newBalance < balance - 1
  {
    var s := Stake(400, balance, balance, NoVault);
    assert EffectiveRate(20_000, 400, NoVault) == 16_000;
    assert EffectiveRate(1_000, 400, NoVault) == 800;
    DailyRateOneToFive(800);
    BpsOrZeroMonotone(2_000_000, 1, balance, DailyRate(800));
    assert FloorAmount(s) == balance / 10;
  }

  /** A base rate that overflows is taken for 0: the stake loses at the minimum rate, less than at 10%. */
  lemma OverflowHardlyDecays(balance: u64)
    requires 2_000_000 <= balance <= TOTAL_SUPPLY
    ensures var s := Stake(400, balance, balance, NoVault);
            Apply(1_000, s).newBalance < Apply(U64_MAX, s).newBalance == balance - balance / BPS
  {
    var s := Stake(400, balance, balance, NoVault);
    assert EffectiveRate(U64_MAX, 400, NoVault) == MIN_RATE && EffectiveRate(1_000, 400, NoVault) == 800;
    DailyRateAtMinimum();
    DailyRateOneToFive(800);
    DailyRateCoversAnnual(800);
    BpsOrZeroMonotone(balance, 3, balance, DailyRate(800));
    assert FloorAmount(s) == balance / 10;
  }
}
