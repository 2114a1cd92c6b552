/**
 * The autonomous bounty loop: discover, assess, claim, execute, submit, wait
 * for verification, rework. The relay, the agent service, the clock and the
 * random jitter are supplied per iteration by a `World`.
 */
module BountyLoop {
  import opened Prelude

  const MAX_REVISIONS: nat := 3

  datatype LoopState =
    | Idle
    | Assessing
    | Executing(bounty: string, reward: nat)
    | AwaitingVerification(bounty: string, reward: nat)
    | Reworking(bounty: string, reward: nat, revision: nat, feedback: string)
    | Stopping

  datatype Telemetry = Telemetry(discovered: nat, claimed: nat, completed: nat, failed: nat,
                                 earned: int, iterations: nat)

  /** Seconds throughout, as in the configuration. */
  datatype Config = Config(polling: nat, backoffMax: nat, minFit: real, verificationTimeout: nat, dailyLimit: nat)

  /** A discovered bounty with what the assessment said of it, if it answered. */
  datatype Offer = Offer(id: string, reward: nat, fit: Option<real>)

  datatype ClaimReply = ClaimError | ClaimStatus(status: string)
  datatype SubmitReply = SubmitError | Submitted(status: string, tokens: int)
  datatype CheckReply = CheckError | Checked(status: string, tokens: int, revisionCount: nat, feedback: string)

  /** Everything one iteration learns from outside. Instants are in milliseconds. */
  datatype World = World(stopSignal: bool, stoppedInDb: bool, today: int, now: int, done: int,
                         discovered: Option<seq<Offer>>, claim: ClaimReply, submit: SubmitReply,
                         check: CheckReply, jitter: nat)

  datatype Agent = Agent(state: LoopState, telemetry: Telemetry, dailyClaims: nat, lastClaimDate: int,
                         backoff: nat, timer: Option<int>)

  // ── Choosing a bounty ─────────────────────────────────────────────────

  predicate Eligible(o: Offer, minFit: real) {
    o.fit.Some? && o.fit.value >= minFit
  }

  /** The value-adjusted fitness. */
  function Worth(o: Offer): real {
    if o.fit.Some? then o.fit.value * o.reward as real else 0.0
  }

  /**
   * The running best after all offers. A newcomer's worth is compared with
   * the *reward* of the incumbent, not with its worth.
   */
  function Best(offers: seq<Offer>, minFit: real): (b: Option<nat>)
    ensures b.Some? ==> b.value < |offers| && Eligible(offers[b.value], minFit)
  {
    if offers == [] then None
    else
      var n := |offers| - 1;
      var best := Best(offers[..n], minFit);
      if Eligible(offers[n], minFit)
         && (best.None? || Worth(offers[n]) > offers[best.value].reward as real)
      then Some(n) else best
  }

  method ChooseBounty(offers: seq<Offer>, minFit: real) returns (best: Option<nat>)
    ensures best == Best(offers, minFit)
  {
    best := None;
    for i := 0 to |offers|
      invariant best == Best(offers[..i], minFit)
    {
      assert offers[..i + 1][..i] == offers[..i];
      var bounty := offers[i];
      if bounty.fit.Some? && bounty.fit.value >= minFit {
        var value := bounty.fit.value * bounty.reward as real;
        if best.None? || value > offers[best.value].reward as real {
          best := Some(i);
        }
      }
    }
    assert offers[..|offers|] == offers;
  }

  /** Fit scores are products of factors in [0, 1]. */
  predicate ScoresAreFractions(offers: seq<Offer>) {
    forall o :: o in offers && o.fit.Some? ==> 0.0 <= o.fit.value <= 1.0
  }

  lemma WorthAtMostReward(o: Offer)
    requires o.fit.Some? ==> 0.0 <= o.fit.value <= 1.0
    ensures 0.0 <= Worth(o) <= o.reward as real
  {
    if o.fit.Some? {
      FractionOf(o.fit.value, o.reward as real);
    }
  }

  lemma FractionOf(f: real, r: real)
    requires 0.0 <= f <= 1.0 && 0.0 <= r
    ensures 0.0 <= f * r <= r
  {
    assert (1.0 - f) * r >= 0.0;
  }

  /** Every fitting offer before the choice `c` is worth less than it; none after it is worth more than its reward. */
  ghost predicate Beats(offers: seq<Offer>, minFit: real, c: nat)
    requires c < |offers|
  {
    forall j :: 0 <= j < |offers| && Eligible(offers[j], minFit) ==>
                  && (j < c ==> Worth(offers[j]) < Worth(offers[c]))
                  && (j > c ==> Worth(offers[j]) <= offers[c].reward as real)
  }

  lemma {:induction false} ChoiceBeatsEarlierOffers(offers: seq<Offer>, minFit: real)
    requires ScoresAreFractions(offers)
    ensures Best(offers, minFit).None? <==> forall j :: 0 <= j < |offers| ==> !Eligible(offers[j], minFit)
    ensures Best(offers, minFit).Some? ==> Beats(offers, minFit, Best(offers, minFit).value)
  {
    if offers != [] {
      var n := |offers| - 1;
      var front := offers[..n];
      ChoiceBeatsEarlierOffers(front, minFit);
      assert forall j :: 0 <= j < n ==> offers[j] == front[j];
      var before := Best(front, minFit);
      if before.Some? {
        WorthAtMostReward(offers[before.value]);
      }
    }
  }

  ghost predicate PicksMostWorth(offers: seq<Offer>, minFit: real) {
    var b := Best(offers, minFit);
    b.Some? ==> forall o :: o in offers && Eligible(o, minFit) ==> Worth(o) <= Worth(offers[b.value])
  }

  /** `o` could hide something better: its own worth is less, its reward is not. */
  predicate Hides(o: Offer, better: Offer) {
    Worth(o) < Worth(better) <= o.reward as real
  }

  ghost predicate IsMostWorth(best: Offer, offers: seq<Offer>, minFit: real) {
    best in offers && Eligible(best, minFit) && forall o :: o in offers && Eligible(o, minFit) ==> Worth(o) <= Worth(best)
  }

  /** A hiding offer listed first is picked instead of the most worthwhile one. */
  lemma {:induction false} HidingOfferFirstWins(offers: seq<Offer>, minFit: real, best: Offer)
    requires offers != [] && Eligible(offers[0], minFit) && IsMostWorth(best, offers, minFit)
    requires Worth(best) <= offers[0].reward as real
    ensures Best(offers, minFit) == Some(0)
  {
    HiddenPrefix(offers, minFit, best, |offers|);
    assert offers[..|offers|] == offers;
  }

  lemma {:induction false} HiddenPrefix(offers: seq<Offer>, minFit: real, best: Offer, n: nat)
    requires 0 < n <= |offers| && Eligible(offers[0], minFit) && IsMostWorth(best, offers, minFit)
    requires Worth(best) <= offers[0].reward as real
    ensures Best(offers[..n], minFit) == Some(0)
  {
    assert offers[..n][..n - 1] == offers[..n - 1];
    if n > 1 {
      HiddenPrefix(offers, minFit, best, n - 1);
      assert offers[n - 1] in offers;
    }
  }

  lemma UnhiddenBestIsPicked(order: seq<Offer>, minFit: real, best: Offer)
    requires ScoresAreFractions(order) && IsMostWorth(best, order, minFit)
    requires forall o :: o in order && Eligible(o, minFit) ==> !Hides(o, best)
    ensures PicksMostWorth(order, minFit)
  {
    ChoiceBeatsEarlierOffers(order, minFit);
    var j :| 0 <= j < |order| && order[j] == best;
    var c := Best(order, minFit).value;
    assert Worth(best) <= Worth(order[c]);
  }

  lemma HiddenBestIsMissed(offers: seq<Offer>, minFit: real, best: Offer, o: Offer) returns (order: seq<Offer>)
    requires IsMostWorth(best, offers, minFit)
    requires o in offers && Eligible(o, minFit) && Hides(o, best)
    ensures multiset(order) == multiset(offers) && !PicksMostWorth(order, minFit)
  {
    var i :| 0 <= i < |offers| && offers[i] == o;
    order := [o] + offers[..i] + offers[i + 1..];
    assert offers == offers[..i] + [o] + offers[i + 1..];
    assert multiset(order) == multiset(offers);
    SameOffers(order, offers);
    HidingOfferFirstWins(order, minFit, best);
    assert best in order;
  }

  /**
   * When the choice is right: the loop picks a most worthwhile bounty in
   * every order the relay may list them if and only if no eligible bounty
   * hides the most worthwhile one behind its larger reward.
   */
  lemma ChoiceIsBestIff(offers: seq<Offer>, minFit: real, best: Offer)
    requires ScoresAreFractions(offers) && IsMostWorth(best, offers, minFit)
    ensures (forall order: seq<Offer> :: multiset(order) == multiset(offers) ==> PicksMostWorth(order, minFit))
            <==> forall o :: o in offers && Eligible(o, minFit) ==> !Hides(o, best)
  {
    if o :| o in offers && Eligible(o, minFit) && Hides(o, best) {
      var order := HiddenBestIsMissed(offers, minFit, best, o);
    } else {
      forall order: seq<Offer> | multiset(order) == multiset(offers)
        ensures PicksMostWorth(order, minFit)
      {
        SameOffers(order, offers);
        UnhiddenBestIsPicked(order, minFit, best);
      }
    }
  }

  lemma SameOffers(a: seq<Offer>, b: seq<Offer>)
    requires multiset(a) == multiset(b)
    ensures forall o :: o in a <==> o in b
  {
    assert forall o :: o in a <==> o in multiset(a);
    assert forall o :: o in b <==> o in multiset(b);
  }

  /** Two bounties of equal reward: half fit listed first beats nine-tenths fit. */
  lemma BetterFitPassedOver()
    ensures var offers := [Offer("first", 100, Some(0.5)), Offer("second", 100, Some(0.9))];
            Best(offers, 0.3) == Some(0) && Worth(offers[1]) > Worth(offers[0])
  {
    var offers := [Offer("first", 100, Some(0.5)), Offer("second", 100, Some(0.9))];
    assert offers[..1] == [offers[0]] && offers[..1][..0] == [];
  }

  // ── One iteration ─────────────────────────────────────────────────────

  function JitteredBackoff(cfg: Config, current: nat, jitter: nat): nat {
    Min(Min(current * 2, cfg.backoffMax) + jitter, cfg.backoffMax)
  }

  function Completed(cfg: Config, a: Agent, tokens: int): Agent {
    a.(state := Idle, backoff := cfg.polling,
       telemetry := a.telemetry.(completed := a.telemetry.completed + 1, earned := a.telemetry.earned + tokens))
  }

  function FailedBounty(cfg: Config, a: Agent): Agent {
    a.(state := Idle, timer := None, backoff := cfg.polling,
       telemetry := a.telemetry.(failed := a.telemetry.failed + 1))
  }

  function OnIdle(cfg: Config, a: Agent, w: World): Agent {
    if a.dailyClaims >= cfg.dailyLimit then a.(backoff := cfg.backoffMax)
    else if w.discovered.None? || w.discovered.value == [] then a.(backoff := JitteredBackoff(cfg, a.backoff, w.jitter))
    else
      var offers := w.discovered.value;
      var seen := a.(telemetry := a.telemetry.(discovered := a.telemetry.discovered + |offers|));
      var best := Best(offers, cfg.minFit);
      if best.None? then seen.(backoff := JitteredBackoff(cfg, a.backoff, w.jitter))
      else if w.claim == ClaimStatus("claimed") then
        seen.(dailyClaims := a.dailyClaims + 1,
              telemetry := seen.telemetry.(claimed := a.telemetry.claimed + 1),
              state := Executing(offers[best.value].id, offers[best.value].reward),
              backoff := cfg.polling)
      else seen
  }

  /** After executing or reworking, the proof is submitted whether or not the work succeeded. */
  function OnSubmit(cfg: Config, a: Agent, w: World, bounty: string, reward: nat): Agent {
    match w.submit
    case SubmitError => FailedBounty(cfg, a)
    case Submitted(status, tokens) =>
      if status == "approved" then Completed(cfg, a, tokens)
      else a.(state := AwaitingVerification(bounty, reward), timer := Some(w.done), backoff := cfg.polling)
  }

  /** `as u16` on the relay's counter. */
  function Revision(count: nat): nat {
    count % 0x1_0000
  }

  function OnAwaiting(cfg: Config, a: Agent, w: World, bounty: string, reward: nat): Agent {
    var started := if a.timer.Some? then a.timer.value else w.now;
    var waiting := a.(timer := Some(started), backoff := cfg.polling);
    if (w.now - started) / 1000 >= cfg.verificationTimeout then FailedBounty(cfg, a)
    else match w.check
      case CheckError => waiting
      case Checked(status, tokens, revisionCount, feedback) =>
        if status == "approved" then Completed(cfg, a, tokens).(timer := None)
        else if status == "rejected" then FailedBounty(cfg, a)
        else if status == "claimed" && Revision(revisionCount) > 0 && feedback != "" then
          if Revision(revisionCount) > MAX_REVISIONS then FailedBounty(cfg, a)
          else waiting.(state := Reworking(bounty, reward, Revision(revisionCount), feedback), timer := None)
        else waiting
  }

  function OnState(cfg: Config, a: Agent, w: World): Agent {
    match a.state
    case Idle => OnIdle(cfg, a, w)
    case Executing(bounty, reward) => OnSubmit(cfg, a, w, bounty, reward)
    case AwaitingVerification(bounty, reward) => OnAwaiting(cfg, a, w, bounty, reward)
    case Reworking(bounty, reward, _, _) => OnSubmit(cfg, a, w, bounty, reward)
    case Assessing => a.(state := Idle)
    case Stopping => a
  }

  predicate Stops(a: Agent, w: World) {
    w.stopSignal || w.stoppedInDb
  }

  /** One iteration that does not stop the loop. */
  function Step(cfg: Config, a: Agent, w: World): Agent {
    var today := if w.today != a.lastClaimDate then a.(dailyClaims := 0, lastClaimDate := w.today) else a;
    OnState(cfg, today.(telemetry := a.telemetry.(iterations := a.telemetry.iterations + 1)), w)
  }

  class AutonomousAgentLoop {
    const cfg: Config
    var state: LoopState
    var telemetry: Telemetry
    var dailyClaims: nat
    var lastClaimDate: int
    var currentBackoff: nat
    var verificationStartedAt: Option<int>

    ghost function View(): Agent
      reads this
    {
      Agent(state, telemetry, dailyClaims, lastClaimDate, currentBackoff, verificationStartedAt)
    }

    constructor (cfg: Config, claimedToday: nat, today: int)
      ensures this.cfg == cfg && View() == Fresh(cfg, claimedToday, today)
    {
      this.cfg := cfg;
      state, telemetry := Idle, Telemetry(0, 0, 0, 0, 0, 0);
      dailyClaims, lastClaimDate := claimedToday, today;
      currentBackoff, verificationStartedAt := cfg.polling, None;
    }

    /** One turn of `run`; false when the loop is left. */
    method Iterate(w: World) returns (go: bool)
      requires !state.Stopping?
      modifies this
      ensures go <==> !Stops(old(View()), w)
      ensures View() == if go then Step(cfg, old(View()), w) else old(View()).(state := Stopping)
    {
      if w.stopSignal {
        state := Stopping;
        return false;
      }
      if w.stoppedInDb {
        state := Stopping;
        return false;
      }
      go := true;
      if w.today != lastClaimDate {
        dailyClaims, lastClaimDate := 0, w.today;
      }
      telemetry := telemetry.(iterations := telemetry.iterations + 1);
      match state {
        case Idle =>
          DiscoverAndClaim(w);
        case Executing(bounty, reward) =>
          SubmitProof(w, bounty, reward);
        case AwaitingVerification(bounty, reward) =>
          CheckVerification(w, bounty, reward);
        case Reworking(bounty, reward, _, _) =>
          SubmitProof(w, bounty, reward);
        case Assessing =>
          state := Idle;
      }
    }

    method DiscoverAndClaim(w: World)
      requires state.Idle?
      modifies this
      ensures View() == OnIdle(cfg, old(View()), w)
    {
      if dailyClaims >= cfg.dailyLimit {
        currentBackoff := cfg.backoffMax;
        return;
      }
      if w.discovered.None? {
        currentBackoff := JitteredBackoff(cfg, currentBackoff, w.jitter);
        return;
      }
      var bounties := w.discovered.value;
      telemetry := telemetry.(discovered := telemetry.discovered + |bounties|);
      if bounties == [] {
        currentBackoff := JitteredBackoff(cfg, currentBackoff, w.jitter);
        return;
      }
      state := Assessing;
      var best := ChooseBounty(bounties, cfg.minFit);
      if best.None? {
        state := Idle;
        currentBackoff := JitteredBackoff(cfg, currentBackoff, w.jitter);
      } else if w.claim == ClaimStatus("claimed") {
        dailyClaims := dailyClaims + 1;
        telemetry := telemetry.(claimed := telemetry.claimed + 1);
        state := Executing(bounties[best.value].id, bounties[best.value].reward);
        currentBackoff := cfg.polling;
      } else {
        state := Idle;
      }
    }

    method SubmitProof(w: World, bounty: string, reward: nat)
      modifies this
      ensures View() == OnSubmit(cfg, old(View()), w, bounty, reward)
    {
      match w.submit {
        case Submitted(status, tokens) =>
          if status == "approved" {
            telemetry := telemetry.(completed := telemetry.completed + 1);
            telemetry := telemetry.(earned := telemetry.earned + tokens);
            state := Idle;
          } else {
            state := AwaitingVerification(bounty, reward);
            verificationStartedAt := Some(w.done);
          }
        case SubmitError =>
          telemetry := telemetry.(failed := telemetry.failed + 1);
          state := Idle;
          verificationStartedAt := None;
      }
      currentBackoff := cfg.polling;
    }

    method CheckVerification(w: World, bounty: string, reward: nat)
      modifies this
      ensures View() == OnAwaiting(cfg, old(View()), w, bounty, reward)
    {
      if verificationStartedAt.None? {
        verificationStartedAt := Some(w.now);
      }
      currentBackoff := cfg.polling;
      if (w.now - verificationStartedAt.value) / 1000 >= cfg.verificationTimeout {
        GiveUp();
        return;
      }
      match w.check {
        case CheckError =>
        case Checked(status, tokens, revisionCount, feedback) =>
          match status {
            case "approved" =>
              telemetry := telemetry.(completed := telemetry.completed + 1);
              telemetry := telemetry.(earned := telemetry.earned + tokens);
              state, verificationStartedAt := Idle, None;
            case "rejected" =>
              GiveUp();
            case "claimed" =>
              var revision := revisionCount % 0x1_0000;
              if revision > 0 && feedback != "" {
                if revision > MAX_REVISIONS {
                  GiveUp();
                } else {
                  state := Reworking(bounty, reward, revision, feedback);
                }
                verificationStartedAt := None;
              }
            case _ =>
          }
      }
    }

    method GiveUp()
      modifies this
      ensures View() == old(View()).(state := Idle, timer := None,
                telemetry := old(telemetry).(failed := old(telemetry).failed + 1))
    {
      telemetry := telemetry.(failed := telemetry.failed + 1);
      state, verificationStartedAt := Idle, None;
    }
  }

  // ── Runs ──────────────────────────────────────────────────────────────

  function Fresh(cfg: Config, claimedToday: nat, today: int): Agent {
    Agent(Idle, Telemetry(0, 0, 0, 0, 0, 0), claimedToday, today, cfg.polling, None)
  }

  predicate NeverStops(ws: seq<World>) {
    forall w :: w in ws ==> !w.stopSignal && !w.stoppedInDb
  }

  function After(cfg: Config, a: Agent, ws: seq<World>): Agent
    decreases |ws|
  {
    if ws == [] then a else After(cfg, Step(cfg, a, ws[0]), ws[1..])
  }

  predicate InFlight(s: LoopState) {
    s.Executing? || s.AwaitingVerification? || s.Reworking?
  }

  function Open(s: LoopState): nat {
    if InFlight(s) then 1 else 0
  }

  /** What holds at the head of the loop on every run. */
  ghost predicate Inv(cfg: Config, a: Agent) {
    && (a.state.Idle? || InFlight(a.state))
    && a.telemetry.claimed == a.telemetry.completed + a.telemetry.failed + Open(a.state)
    && (a.timer.Some? <==> a.state.AwaitingVerification?)
    && (a.state.Reworking? ==> 1 <= a.state.revision <= MAX_REVISIONS && a.state.feedback != "")
    && (InFlight(a.state) ==> a.backoff == cfg.polling)
    && a.backoff <= Max(cfg.polling, cfg.backoffMax)
  }

  lemma StepKeepsInv(cfg: Config, a: Agent, w: World)
    requires Inv(cfg, a)
    ensures Inv(cfg, Step(cfg, a, w))
  {
  }

  lemma {:induction false} RunKeepsInv(cfg: Config, a: Agent, ws: seq<World>)
    requires Inv(cfg, a)
    ensures Inv(cfg, After(cfg, a, ws))
    decreases |ws|
  {
    if ws != [] {
      StepKeepsInv(cfg, a, ws[0]);
      RunKeepsInv(cfg, Step(cfg, a, ws[0]), ws[1..]);
    }
  }

  /**
   * The ledger, from the start of the loop on: each claim is completed, failed
   * or the one in flight; the verification timer runs exactly while waiting for
   * verification; `Assessing` and `Stopping` never reach the loop head.
   */
  lemma LedgerBalances(cfg: Config, claimedToday: nat, today: int, ws: seq<World>)
    ensures var a := After(cfg, Fresh(cfg, claimedToday, today), ws);
            && a.telemetry.claimed == a.telemetry.completed + a.telemetry.failed + Open(a.state)
            && (a.timer.Some? <==> a.state.AwaitingVerification?)
            && !a.state.Assessing? && !a.state.Stopping?
            && a.backoff <= Max(cfg.polling, cfg.backoffMax)
  {
    FreshInv(cfg, claimedToday, today);
    RunKeepsInv(cfg, Fresh(cfg, claimedToday, today), ws);
  }

  lemma FreshInv(cfg: Config, claimedToday: nat, today: int)
    ensures Inv(cfg, Fresh(cfg, claimedToday, today))
  {
  }

  // ── The daily limit ───────────────────────────────────────────────────

  /** Claims made on date `d` along a run. */
  function ClaimsOn(cfg: Config, a: Agent, ws: seq<World>, d: int): nat
    decreases |ws|
  {
    if ws == [] then 0
    else
      var a' := Step(cfg, a, ws[0]);
      ClaimsOn(cfg, a', ws[1..], d) +
      if ws[0].today == d && a'.telemetry.claimed != a.telemetry.claimed then 1 else 0
  }

  ghost predicate DatesAdvance(last: int, ws: seq<World>)
    decreases |ws|
  {
    ws != [] ==> last <= ws[0].today && DatesAdvance(ws[0].today, ws[1..])
  }

  /** An iteration counts its date's claims, and claims only below the limit. */
  lemma ClaimsOneAtMost(cfg: Config, a: Agent, w: World)
    ensures var a', used := Step(cfg, a, w), if a.lastClaimDate == w.today then a.dailyClaims else 0;
            && a'.lastClaimDate == w.today
            && var claims := a'.telemetry.claimed - a.telemetry.claimed;
               (claims == 0 || (claims == 1 && used < cfg.dailyLimit)) && a'.dailyClaims == used + claims
  {
  }

  /** No date sees more claims than the limit, those made before the start included. */
  lemma {:induction false} DailyLimitHolds(cfg: Config, a: Agent, ws: seq<World>, d: int)
    requires DatesAdvance(a.lastClaimDate, ws)
    ensures ClaimsOn(cfg, a, ws, d) <= SaturatingSub(cfg.dailyLimit, if a.lastClaimDate == d then a.dailyClaims else 0)
    ensures d < a.lastClaimDate ==> ClaimsOn(cfg, a, ws, d) == 0
    decreases |ws|
  {
    if ws != [] {
      ClaimsOneAtMost(cfg, a, ws[0]);
      DailyLimitHolds(cfg, Step(cfg, a, ws[0]), ws[1..], d);
    }
  }

  // ── Every claimed bounty is resolved ──────────────────────────────────

  /** The iteration starts no earlier than the sleep before it ends. */
  predicate OnTime(a: Agent, w: World, clock: int) {
    clock + 1000 * a.backoff <= w.now <= w.done
  }

  /**
   * What is asked of relay and clock while a bounty is in flight: time passes
   * while the loop sleeps, and each revision request carries a higher count
   * than the last one answered, `k`.
   */
  predicate Fair(cfg: Config, a: Agent, w: World, clock: int, k: nat) {
    && OnTime(a, w, clock)
    && (a.state.AwaitingVerification? && w.check.Checked? && w.check.status == "claimed"
        && Revision(w.check.revisionCount) > 0 && w.check.feedback != ""
        ==> Revision(w.check.revisionCount) > k)
  }

  function LastRevision(s: LoopState, k: nat): nat {
    if s.Reworking? then s.revision else k
  }

  ghost predicate FairRun(cfg: Config, a: Agent, ws: seq<World>, clock: int, k: nat)
    decreases |ws|
  {
    ws != [] ==>
      && Fair(cfg, a, ws[0], clock, k)
      && var a' := Step(cfg, a, ws[0]);
         FairRun(cfg, a', ws[1..], ws[0].done, LastRevision(a'.state, k))
  }

  /** Whole seconds left before the wait is given up. */
  function TimeLeft(cfg: Config, a: Agent, clock: int): nat {
    if a.timer.Some? && clock >= a.timer.value then SaturatingSub(cfg.verificationTimeout, (clock - a.timer.value) / 1000)
    else cfg.verificationTimeout
  }

  /** Reworks left, then phase, then time left, folded into one number. */
  function Measure(cfg: Config, a: Agent, clock: int, k: nat): nat {
    SaturatingSub(MAX_REVISIONS, k) * (cfg.verificationTimeout + 3)
    + if a.state.AwaitingVerification? then TimeLeft(cfg, a, clock) else cfg.verificationTimeout + 1
  }

  ghost predicate ClockSane(a: Agent, clock: int, k: nat) {
    && k <= MAX_REVISIONS
    && (a.timer.Some? ==> a.timer.value <= clock)
  }

  lemma MeasureFalls(cfg: Config, a: Agent, w: World, clock: int, k: nat)
    requires Inv(cfg, a) && InFlight(a.state) && cfg.polling >= 1
    requires Fair(cfg, a, w, clock, k) && ClockSane(a, clock, k)
    requires InFlight(Step(cfg, a, w).state)
    ensures var a' := Step(cfg, a, w);
            var k' := LastRevision(a'.state, k);
            && ClockSane(a', w.done, k')
            && Measure(cfg, a', w.done, k') < Measure(cfg, a, clock, k)
            && a'.state.bounty == a.state.bounty
  {
    var a' := Step(cfg, a, w);
    if a.state.AwaitingVerification? {
      if a'.state.Reworking? {
        FewerReworks(k, a'.state.revision, cfg.verificationTimeout + 3);
      } else {
        assert (w.now - a.timer.value) / 1000 >= (clock - a.timer.value) / 1000 + 1;
        assert (w.done - a.timer.value) / 1000 >= (w.now - a.timer.value) / 1000;
      }
    }
  }

  lemma FewerReworks(k: nat, k': nat, m: nat)
    requires k < k' <= MAX_REVISIONS
    ensures SaturatingSub(MAX_REVISIONS, k') * m + m <= SaturatingSub(MAX_REVISIONS, k) * m
  {
    var less, more := SaturatingSub(MAX_REVISIONS, k'), SaturatingSub(MAX_REVISIONS, k);
    assert (less + 1) * m <= more * m;
  }

  /** Resolving happens in one step: back to idle, with exactly one more completion or failure. */
  lemma ResolvedOnce(cfg: Config, a: Agent, w: World)
    requires Inv(cfg, a) && InFlight(a.state) && !InFlight(Step(cfg, a, w).state)
    ensures var a' := Step(cfg, a, w);
            && a'.state.Idle? && a'.timer.None?
            && a'.telemetry.claimed == a.telemetry.claimed
            && a'.telemetry.completed + a'.telemetry.failed == a.telemetry.completed + a.telemetry.failed + 1
  {
  }

  /**
   * Every claimed bounty is resolved exactly once: on a run longer than the
   * measure, some iteration brings the loop back to idle with exactly one
   * more completion or failure than before.
   */
  lemma {:induction false} BountyIsResolved(cfg: Config, a: Agent, ws: seq<World>, clock: int, k: nat) returns (n: nat)
    requires Inv(cfg, a) && InFlight(a.state) && cfg.polling >= 1
    requires FairRun(cfg, a, ws, clock, k) && ClockSane(a, clock, k)
    requires |ws| > Measure(cfg, a, clock, k)
    ensures 0 < n <= |ws| && n <= Measure(cfg, a, clock, k) + 1
    ensures forall i :: 0 <= i < n ==> InFlight(After(cfg, a, ws[..i]).state)
    ensures var end := After(cfg, a, ws[..n]);
            && end.state.Idle? && end.telemetry.claimed == a.telemetry.claimed
            && end.telemetry.completed + end.telemetry.failed == a.telemetry.completed + a.telemetry.failed + 1
    decreases |ws|
  {
    var a' := Step(cfg, a, ws[0]);
    StepKeepsInv(cfg, a, ws[0]);
    if InFlight(a'.state) {
      MeasureFalls(cfg, a, ws[0], clock, k);
      var m := BountyIsResolved(cfg, a', ws[1..], ws[0].done, LastRevision(a'.state, k));
      n := m + 1;
      assert ws[..n][1..] == ws[1..][..m];
      forall i | 0 < i < n ensures InFlight(After(cfg, a, ws[..i]).state) {
        assert ws[..i][1..] == ws[1..][..i - 1];
      }
      InFlightChangesNothing(cfg, a, ws[0]);
    } else {
      n := 1;
      ResolvedOnce(cfg, a, ws[0]);
      assert ws[..1][1..] == [] && ws[..0] == [];
    }
  }

  lemma InFlightChangesNothing(cfg: Config, a: Agent, w: World)
    requires Inv(cfg, a) && InFlight(a.state) && InFlight(Step(cfg, a, w).state)
    ensures var t, t' := a.telemetry, Step(cfg, a, w).telemetry;
            t'.claimed == t.claimed && t'.completed == t.completed && t'.failed == t.failed
  {
  }

  /** From the claim on, at most `4 * timeout + 11` iterations. */
  lemma IterationsAfterClaim(cfg: Config, a: Agent, clock: int)
    requires a.state.Executing?
    ensures Measure(cfg, a, clock, 0) + 1 == 4 * cfg.verificationTimeout + 11
  {
  }

  ghost predicate OnTimeRun(cfg: Config, a: Agent, ws: seq<World>, clock: int)
    decreases |ws|
  {
    ws != [] ==> OnTime(a, ws[0], clock) && OnTimeRun(cfg, Step(cfg, a, ws[0]), ws[1..], ws[0].done)
  }

  /** The relay takes every proof for review and then asks for the same revision as before. */
  predicate AsksAgain(w: World, count: nat, feedback: string) {
    && w.submit == Submitted("pending_review", 0)
    && w.check == Checked("claimed", 0, count, feedback)
  }

  /** A run that is still on the bounty after each of its iterations. */
  ghost predicate NeverResolved(cfg: Config, a: Agent, ws: seq<World>) {
    forall i :: 0 <= i <= |ws| ==> InFlight(After(cfg, a, ws[..i]).state)
  }

  lemma StaysUnresolved(cfg: Config, a: Agent, w: World, rest: seq<World>)
    requires InFlight(a.state) && NeverResolved(cfg, Step(cfg, a, w), rest)
    ensures NeverResolved(cfg, a, [w] + rest)
  {
    var ws := [w] + rest;
    forall i | 0 <= i <= |ws| ensures InFlight(After(cfg, a, ws[..i]).state) {
      if i > 0 {
        assert ws[..i][1..] == rest[..i - 1];
      }
    }
  }

  /**
   * The relay's counter is needed: with one that stands still there is, for
   * every `n`, a run of `n` iterations, time passing as it should, that still
   * works on the same bounty.
   */
  lemma {:induction false} StaleRevisionNeverEnds(cfg: Config, a: Agent, clock: int, count: nat, feedback: string, n: nat)
    returns (ws: seq<World>)
    requires Inv(cfg, a) && InFlight(a.state) && (a.timer.Some? ==> a.timer.value == clock)
    requires cfg.polling < cfg.verificationTimeout && 1 <= Revision(count) <= MAX_REVISIONS && feedback != ""
    ensures |ws| == n && OnTimeRun(cfg, a, ws, clock) && NeverStops(ws)
    ensures forall i :: 0 <= i < n ==> AsksAgain(ws[i], count, feedback)
    ensures NeverResolved(cfg, a, ws)
    decreases n
  {
    if n == 0 {
      ws := [];
    } else {
      var now := clock + 1000 * cfg.polling;
      var w := World(false, false, a.lastClaimDate, now, now, None, ClaimError, Submitted("pending_review", 0),
                     Checked("claimed", 0, count, feedback), 0);
      StepKeepsInv(cfg, a, w);
      var rest := StaleRevisionNeverEnds(cfg, Step(cfg, a, w), now, count, feedback, n - 1);
      ws := [w] + rest;
      assert ws[1..] == rest;
      StaysUnresolved(cfg, a, w, rest);
    }
  }

  lemma AfterOne(cfg: Config, a: Agent, w: World, rest: seq<World>)
    ensures After(cfg, a, [w] + rest) == After(cfg, Step(cfg, a, w), rest)
  {
    assert ([w] + rest)[1..] == rest;
  }

  /** Where the wait is over by the first check, the second iteration resolves the bounty, whatever the relay says. */
  lemma ResolvedInTwo(cfg: Config, a: Agent, ws: seq<World>, clock: int)
    requires Inv(cfg, a) && (a.state.Executing? || a.state.Reworking?)
    requires cfg.verificationTimeout <= cfg.polling && |ws| >= 2 && OnTimeRun(cfg, a, ws, clock)
    ensures !NeverResolved(cfg, a, ws)
  {
    var first := Step(cfg, a, ws[0]);
    StepKeepsInv(cfg, a, ws[0]);
    assert OnTimeRun(cfg, first, ws[1..], ws[0].done);
    assert ws[..1] == [ws[0]] && ws[..2] == [ws[0], ws[1]];
    AfterOne(cfg, a, ws[0], []);
    AfterOne(cfg, a, ws[0], [ws[1]]);
    AfterOne(cfg, first, ws[1], []);
    if InFlight(first.state) {
      assert first.timer == Some(ws[0].done) && first.backoff == cfg.polling;
      assert (ws[1].now - ws[0].done) / 1000 >= cfg.polling;
    }
  }

  /** Within some number of iterations the bounty is resolved, whatever relay and clock do. */
  ghost predicate AlwaysResolved(cfg: Config, a: Agent, clock: int) {
    exists n: nat :: ResolvedBy(cfg, a, clock, n)
  }

  ghost predicate ResolvedBy(cfg: Config, a: Agent, clock: int, n: nat) {
    forall ws: seq<World> :: |ws| >= n && OnTimeRun(cfg, a, ws, clock) && NeverStops(ws) ==> !NeverResolved(cfg, a, ws)
  }

  /**
   * Against an arbitrary relay: a claimed bounty is resolved on every run that
   * keeps time, if and only if a single sleep outlasts the verification timeout.
   */
  lemma AlwaysResolvedIff(cfg: Config, a: Agent, clock: int)
    requires Inv(cfg, a) && (a.state.Executing? || a.state.Reworking?)
    ensures AlwaysResolved(cfg, a, clock) <==> cfg.verificationTimeout <= cfg.polling
  {
    if cfg.verificationTimeout <= cfg.polling {
      forall ws: seq<World> | |ws| >= 2 && OnTimeRun(cfg, a, ws, clock) && NeverStops(ws)
        ensures !NeverResolved(cfg, a, ws)
      {
        ResolvedInTwo(cfg, a, ws, clock);
      }
      assert ResolvedBy(cfg, a, clock, 2);
    } else {
      forall n: nat ensures !ResolvedBy(cfg, a, clock, n) {
        var ws := StaleRevisionNeverEnds(cfg, a, clock, 1, "again", n);
      }
    }
  }
}
