/**
 * What an iteration of the bounty loop does with what it learns: which bounty
 * it claims, what approval, rejection, silence and revision requests lead to,
 * and what the telemetry of a whole run adds up to.
 */
module BountyOutcomes {
  import opened Prelude
  import opened BountyLoop

  // ── Claiming ──────────────────────────────────────────────────────────

  predicate Fits(o: Offer, minFit: real) {
    o.fit.Some? && o.fit.value >= minFit
  }

  /** Fit times reward; an offer that was not assessed is worth nothing. */
  function Value(o: Offer): real {
    match o.fit
    case Some(f) => f * o.reward as real
    case None => 0.0
  }

  function ClaimsSoFar(a: Agent, w: World): nat {
    if w.today == a.lastClaimDate then a.dailyClaims else 0
  }

  function Offered(w: World): seq<Offer> {
    if w.discovered.Some? then w.discovered.value else []
  }

  predicate SomeFit(offers: seq<Offer>, minFit: real) {
    exists i :: 0 <= i < |offers| && Fits(offers[i], minFit)
  }

  /** An offer that fits, such that those before it are worth less and none after it more than its reward. */
  predicate GoodChoice(offers: seq<Offer>, minFit: real, c: nat) {
    && c < |offers| && Fits(offers[c], minFit)
    && forall i :: 0 <= i < |offers| && Fits(offers[i], minFit) ==>
         (i < c ==> Value(offers[i]) < Value(offers[c])) && (i > c ==> Value(offers[i]) <= offers[c].reward as real)
  }

  /** A fit below the threshold or none at all keeps an offer out, for the choice as for `Fits`. */
  lemma BestIsGoodChoice(offers: seq<Offer>, minFit: real)
    requires ScoresAreFractions(offers)
    ensures Best(offers, minFit).Some? <==> SomeFit(offers, minFit)
    ensures Best(offers, minFit).Some? ==> GoodChoice(offers, minFit, Best(offers, minFit).value)
  {
    ChoiceBeatsEarlierOffers(offers, minFit);
    var b := Best(offers, minFit);
    if b.None? {
      forall i | 0 <= i < |offers| ensures !Fits(offers[i], minFit) {
        assert !Eligible(offers[i], minFit);
      }
    } else {
      assert Beats(offers, minFit, b.value);
      forall i | 0 <= i < |offers| && Fits(offers[i], minFit)
        ensures i < b.value ==> Value(offers[i]) < Value(offers[b.value])
        ensures i > b.value ==> Value(offers[i]) <= offers[b.value].reward as real
      {
        assert Eligible(offers[i], minFit) && Worth(offers[i]) == Value(offers[i]);
        assert Worth(offers[b.value]) == Value(offers[b.value]);
      }
      assert Fits(offers[b.value], minFit);
    }
  }

  /**
   * An idle loop claims exactly when it may still claim today, something fits
   * and the relay grants it; and what it then executes is a good choice among
   * this iteration's offers.
   */
  lemma ClaimsGoodChoiceIff(cfg: Config, a: Agent, w: World)
    requires a.state.Idle? && ScoresAreFractions(Offered(w))
    ensures var a' := Step(cfg, a, w);
            && (a'.state.Executing? <==> ClaimsSoFar(a, w) < cfg.dailyLimit && SomeFit(Offered(w), cfg.minFit)
                                         && w.claim == ClaimStatus("claimed"))
            && (a'.state.Executing? ==>
                  exists c: nat :: GoodChoice(Offered(w), cfg.minFit, c)
                              && a'.state == Executing(Offered(w)[c].id, Offered(w)[c].reward))
            && (!a'.state.Executing? ==> a'.state.Idle?)
  {
    BestIsGoodChoice(Offered(w), cfg.minFit);
    var best := Best(Offered(w), cfg.minFit);
    if Step(cfg, a, w).state.Executing? {
      assert GoodChoice(Offered(w), cfg.minFit, best.value);
    }
  }

  predicate MostValuable(offers: seq<Offer>, minFit: real, c: nat) {
    && c < |offers| && Fits(offers[c], minFit)
    && forall i :: 0 <= i < |offers| && Fits(offers[i], minFit) ==> Value(offers[i]) <= Value(offers[c])
  }

  /** No fitting offer is worth less than the best and yet offers at least the best's worth as its reward. */
  predicate NothingHides(offers: seq<Offer>, minFit: real, best: nat)
    requires best < |offers|
  {
    forall i :: 0 <= i < |offers| && Fits(offers[i], minFit) ==>
      !(Value(offers[i]) < Value(offers[best]) <= offers[i].reward as real)
  }

  lemma GoodIsMostValuable(offers: seq<Offer>, minFit: real, c: nat, best: nat)
    requires GoodChoice(offers, minFit, c) && MostValuable(offers, minFit, best) && NothingHides(offers, minFit, best)
    ensures MostValuable(offers, minFit, c)
  {
    assert Value(offers[best]) <= Value(offers[c]);
  }

  /** Where nothing hides the most valuable offer, the bounty claimed is a most valuable one. */
  lemma ClaimsMostValuable(cfg: Config, a: Agent, w: World, best: nat)
    requires a.state.Idle? && ScoresAreFractions(Offered(w)) && Step(cfg, a, w).state.Executing?
    requires MostValuable(Offered(w), cfg.minFit, best) && NothingHides(Offered(w), cfg.minFit, best)
    ensures exists c: nat :: MostValuable(Offered(w), cfg.minFit, c)
                        && Step(cfg, a, w).state == Executing(Offered(w)[c].id, Offered(w)[c].reward)
  {
    ClaimsGoodChoiceIff(cfg, a, w);
    var offers := Offered(w);
    var c: nat :| GoodChoice(offers, cfg.minFit, c) && Step(cfg, a, w).state == Executing(offers[c].id, offers[c].reward);
    GoodIsMostValuable(offers, cfg.minFit, c, best);
  }

  // ── What each answer leads to ─────────────────────────────────────────

  predicate Working(s: LoopState) {
    s.Executing? || s.Reworking?
  }

  /** The wait for verification is over. */
  predicate TimedOut(cfg: Config, a: Agent, w: World) {
    a.timer.Some? && w.now - a.timer.value >= 1000 * cfg.verificationTimeout
  }

  predicate AsksRevision(w: World) {
    w.check.Checked? && w.check.status == "claimed" && w.check.revisionCount % 65536 > 0 && w.check.feedback != ""
  }

  /** The bounty is approved in this iteration. */
  predicate Approved(cfg: Config, a: Agent, w: World) {
    || (Working(a.state) && w.submit.Submitted? && w.submit.status == "approved")
    || (a.state.AwaitingVerification? && !TimedOut(cfg, a, w) && w.check.Checked? && w.check.status == "approved")
  }

  /** The bounty is lost in this iteration. */
  predicate Lost(cfg: Config, a: Agent, w: World) {
    || (Working(a.state) && w.submit == SubmitError)
    || (a.state.AwaitingVerification?
        && (|| TimedOut(cfg, a, w)
            || (w.check.Checked? && w.check.status == "rejected")
            || (AsksRevision(w) && w.check.revisionCount % 65536 > 3)))
  }

  function Pay(a: Agent, w: World): int {
    if Working(a.state) then (if w.submit.Submitted? then w.submit.tokens else 0)
    else if w.check.Checked? then w.check.tokens
    else 0
  }

  function One(b: bool): nat {
    if b then 1 else 0
  }

  /** Where a bounty in flight stands after an iteration. */
  lemma InFlightGoesTo(cfg: Config, a: Agent, w: World)
    requires Inv(cfg, a) && InFlight(a.state)
    ensures var a' := Step(cfg, a, w);
            && a'.backoff == cfg.polling
            && (a'.state.Idle? <==> Approved(cfg, a, w) || Lost(cfg, a, w))
            && (a'.state.Idle? ==> a'.timer == None)
            && (!a'.state.Idle? && Working(a.state) ==>
                  a'.state == AwaitingVerification(a.state.bounty, a.state.reward) && a'.timer == Some(w.done))
            && (!a'.state.Idle? && a.state.AwaitingVerification? && AsksRevision(w) ==>
                  && a'.timer == None
                  && a'.state == Reworking(a.state.bounty, a.state.reward, w.check.revisionCount % 65536, w.check.feedback))
            && (!a'.state.Idle? && a.state.AwaitingVerification? && !AsksRevision(w) ==>
                  a'.state == a.state && a'.timer == a.timer)
  {
    TimedOutIff(cfg, a, w);
  }

  lemma TimedOutIff(cfg: Config, a: Agent, w: World)
    requires a.timer.Some? || !a.state.AwaitingVerification?
    ensures a.timer.Some? ==> (TimedOut(cfg, a, w) <==> (w.now - a.timer.value) / 1000 >= cfg.verificationTimeout)
  {
  }

  /** What an iteration adds to the telemetry. */
  lemma StepLedger(cfg: Config, a: Agent, w: World)
    requires Inv(cfg, a)
    ensures var t, t' := a.telemetry, Step(cfg, a, w).telemetry;
            && t'.iterations == t.iterations + 1
            && t'.completed == t.completed + One(Approved(cfg, a, w))
            && t'.failed == t.failed + One(Lost(cfg, a, w))
            && t'.earned == t.earned + (if Approved(cfg, a, w) then Pay(a, w) else 0)
            && t'.claimed == t.claimed + One(a.state.Idle? && Step(cfg, a, w).state.Executing?)
            && t'.discovered == t.discovered + if a.state.Idle? && ClaimsSoFar(a, w) < cfg.dailyLimit then |Offered(w)| else 0
  {
    TimedOutIff(cfg, a, w);
  }

  // ── Over whole runs ───────────────────────────────────────────────────

  function Approvals(cfg: Config, a: Agent, ws: seq<World>): nat
    decreases |ws|
  {
    if ws == [] then 0 else One(Approved(cfg, a, ws[0])) + Approvals(cfg, Step(cfg, a, ws[0]), ws[1..])
  }

  function Losses(cfg: Config, a: Agent, ws: seq<World>): nat
    decreases |ws|
  {
    if ws == [] then 0 else One(Lost(cfg, a, ws[0])) + Losses(cfg, Step(cfg, a, ws[0]), ws[1..])
  }

  function Earnings(cfg: Config, a: Agent, ws: seq<World>): int
    decreases |ws|
  {
    if ws == [] then 0
    else (if Approved(cfg, a, ws[0]) then Pay(a, ws[0]) else 0) + Earnings(cfg, Step(cfg, a, ws[0]), ws[1..])
  }

  lemma {:induction false} RunLedgerFrom(cfg: Config, a: Agent, ws: seq<World>)
    requires Inv(cfg, a)
    ensures var t, t' := a.telemetry, After(cfg, a, ws).telemetry;
            && t'.iterations == t.iterations + |ws|
            && t'.completed == t.completed + Approvals(cfg, a, ws)
            && t'.failed == t.failed + Losses(cfg, a, ws)
            && t'.earned == t.earned + Earnings(cfg, a, ws)
    decreases |ws|
  {
    if ws != [] {
      StepKeepsInv(cfg, a, ws[0]);
      StepLedger(cfg, a, ws[0]);
      RunLedgerFrom(cfg, Step(cfg, a, ws[0]), ws[1..]);
    }
  }

  /** From the start: completed, failed and earned are the approvals, the losses and what the approvals paid. */
  lemma RunLedger(cfg: Config, claimedToday: nat, today: int, ws: seq<World>)
    ensures var a := Fresh(cfg, claimedToday, today);
            var t := After(cfg, a, ws).telemetry;
            && t.iterations == |ws|
            && t.completed == Approvals(cfg, a, ws) && t.failed == Losses(cfg, a, ws) && t.earned == Earnings(cfg, a, ws)
  {
    FreshInv(cfg, claimedToday, today);
    RunLedgerFrom(cfg, Fresh(cfg, claimedToday, today), ws);
  }

  // ── Backing off ───────────────────────────────────────────────────────

  /** Nothing to claim doubles the pause, with jitter, up to the maximum; a used-up day goes there at once. */
  lemma IdlePause(cfg: Config, a: Agent, w: World)
    requires a.state.Idle? && ScoresAreFractions(Offered(w))
    ensures var a' := Step(cfg, a, w);
            && (ClaimsSoFar(a, w) >= cfg.dailyLimit ==> a'.backoff == cfg.backoffMax)
            && (ClaimsSoFar(a, w) < cfg.dailyLimit && !SomeFit(Offered(w), cfg.minFit) ==>
                  a'.backoff == Min(2 * a.backoff + w.jitter, cfg.backoffMax))
            && (ClaimsSoFar(a, w) < cfg.dailyLimit && SomeFit(Offered(w), cfg.minFit) ==>
                  a'.backoff == if w.claim == ClaimStatus("claimed") then cfg.polling else a.backoff)
  {
    BestIsGoodChoice(Offered(w), cfg.minFit);
  }

  predicate FindsNothing(cfg: Config, w: World) {
    !SomeFit(Offered(w), cfg.minFit)
  }

  function Doubled(base: nat, n: nat): nat {
    if n == 0 then base else 2 * Doubled(base, n - 1)
  }

  /** `n` iterations that find nothing make the pause at least `2^n` times as long, or as long as it may get. */
  lemma {:induction false} PauseDoubles(cfg: Config, a: Agent, ws: seq<World>)
    requires a.state.Idle? && a.backoff <= cfg.backoffMax
    requires forall w :: w in ws ==> FindsNothing(cfg, w) && ScoresAreFractions(Offered(w))
    ensures Min(Doubled(a.backoff, |ws|), cfg.backoffMax) <= After(cfg, a, ws).backoff <= cfg.backoffMax
    ensures After(cfg, a, ws).state.Idle?
    decreases |ws|
  {
    if ws != [] {
      var a' := Step(cfg, a, ws[0]);
      assert ws[0] in ws;
      IdlePause(cfg, a, ws[0]);
      ClaimsGoodChoiceIff(cfg, a, ws[0]);
      PauseDoubles(cfg, a', ws[1..]);
      DoubledShift(a.backoff, |ws| - 1);
      DoubledMonotone(Min(2 * a.backoff, cfg.backoffMax), a'.backoff, |ws| - 1);
      DoubledOfMin(2 * a.backoff, cfg.backoffMax, |ws| - 1);
    }
  }

  lemma {:induction false} DoubledShift(base: nat, n: nat)
    ensures Doubled(2 * base, n) == Doubled(base, n + 1)
  {
    if n > 0 {
      DoubledShift(base, n - 1);
    }
  }

  lemma {:induction false} DoubledMonotone(a: nat, b: nat, n: nat)
    requires a <= b
    ensures Doubled(a, n) <= Doubled(b, n)
  {
    if n > 0 {
      DoubledMonotone(a, b, n - 1);
    }
  }

  lemma {:induction false} DoubledOfMin(base: nat, cap: nat, n: nat)
    ensures Min(Doubled(base, n), cap) <= Doubled(Min(base, cap), n)
  {
    if n > 0 {
      DoubledOfMin(base, cap, n - 1);
    }
  }
}
