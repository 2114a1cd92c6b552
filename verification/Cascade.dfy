/**
 * The event cascade of the automation engine: an event starts one run per
 * matching automation, a successful run emits a follow-up event one level
 * deeper through a bounded channel, and runs finish in any order.
 */
module Cascade {
  import opened Prelude
  import opened Arith
  import Json

  const CHANNEL_CAPACITY: nat := 1024
  const DEPTH_LIMIT: int := 5

  datatype TriggerType =
    | RecordCreated | RecordUpdated | RecordDeleted | Schedule | Webhook | Manual | AutomationCompleted

  datatype Automation = Automation(id: string, name: string, enabled: bool, trigger: TriggerType,
                                   config: Json.Value, condition: Option<Json.Value>)

  datatype Event = Event(trigger: TriggerType, collection: Option<string>, data: Json.Value)

  datatype Run = Run(automation: Automation, data: Json.Value)

  // ── Matching ──────────────────────────────────────────────────────────

  /** `evaluate_condition` */
  predicate Satisfies(condition: Json.Value, data: Json.Value) {
    if !condition.Obj? then true
    else if !data.Obj? then condition.fields == map[]
    else forall key :: key in condition.fields ==>
           key in data.fields && data.fields[key] == condition.fields[key]
  }

  predicate AboutRecords(t: TriggerType) {
    t.RecordCreated? || t.RecordUpdated? || t.RecordDeleted?
  }

  predicate Matches(a: Automation, e: Event) {
    && a.enabled && a.trigger == e.trigger
    && (AboutRecords(e.trigger) ==>
          var wanted := Json.Index(a.config, "collection");
          wanted.Str? && e.collection.Some? ==> wanted.s == e.collection.value)
    && (e.trigger.AutomationCompleted? ==>
          var required := Json.Index(a.config, "automation_id");
          var source := Json.Index(e.data, "source_automation_id");
          required.Str? ==> required.s == if source.Str? then source.s else "")
    && (a.condition.Some? ==> Satisfies(a.condition.value, e.data))
  }

  function Matching(rules: seq<Automation>, e: Event): (m: seq<Automation>)
    ensures |m| <= |rules|
  {
    if rules == [] then []
    else
      var last := rules[|rules| - 1];
      Matching(rules[..|rules| - 1], e) + if Matches(last, e) then [last] else []
  }

  /** `find_matching_automations`: the query on trigger and `enabled`, then the filters row by row. */
  method FindMatching(rules: seq<Automation>, e: Event) returns (matching: seq<Automation>)
    ensures matching == Matching(rules, e)
  {
    matching := [];
    for i := 0 to |rules|
      invariant matching == Matching(rules[..i], e)
    {
      var a := rules[i];
      assert rules[..i + 1][..i] == rules[..i];
      if a.trigger != e.trigger || !a.enabled {
        continue;
      }
      if AboutRecords(e.trigger) {
        var wanted := Json.Index(a.config, "collection");
        if wanted.Str? && e.collection.Some? && wanted.s != e.collection.value {
          continue;
        }
      }
      if e.trigger.AutomationCompleted? {
        var required := Json.Index(a.config, "automation_id");
        if required.Str? {
          var source := Json.Index(e.data, "source_automation_id");
          if required.s != (if source.Str? then source.s else "") {
            continue;
          }
        }
      }
      if a.condition.Some? && !Satisfies(a.condition.value, e.data) {
        continue;
      }
      matching := matching + [a];
    }
    assert rules[..|rules|] == rules;
  }

  /** The automations a follow-up event can start at all. */
  function Chained(rules: seq<Automation>): nat {
    if rules == [] then 0
    else
      var last := rules[|rules| - 1];
      Chained(rules[..|rules| - 1]) + if last.enabled && last.trigger.AutomationCompleted? then 1 else 0
  }

  lemma {:induction false} FollowUpsStartChained(rules: seq<Automation>, e: Event)
    ensures e.trigger.AutomationCompleted? ==> |Matching(rules, e)| <= Chained(rules)
    ensures !e.trigger.AutomationCompleted? ==> |Matching(rules, e)| + Chained(rules) <= |rules|
    ensures Chained(rules) <= |rules|
  {
    if rules != [] {
      FollowUpsStartChained(rules[..|rules| - 1], e);
    }
  }

  // ── Depth ─────────────────────────────────────────────────────────────

  /** `get("_chain_depth").as_i64().unwrap_or(0)`: whatever the data carries, negative numbers included. */
  function Depth(data: Json.Value): int {
    var d := Json.Index(data, "_chain_depth");
    if d.Int? && -0x8000_0000_0000_0000 <= d.n < 0x8000_0000_0000_0000 then d.n else 0
  }

  function FollowUp(run: Run, result: Json.Value): Event {
    Event(AutomationCompleted, None, Json.Obj(map[
      "source_automation_id" := Json.Str(run.automation.id),
      "source_automation_name" := Json.Str(run.automation.name),
      "result" := result,
      "trigger_data" := run.data,
      "_chain_depth" := Json.Int(Depth(run.data) + 1)
    ]))
  }

  /** How many levels of runs a run with this data can still head, itself included. */
  function Levels(data: Json.Value): (k: nat)
    ensures k >= 1
  {
    if Depth(data) < DEPTH_LIMIT then DEPTH_LIMIT + 1 - Depth(data) else 1
  }

  lemma FollowUpIsOneLevelLower(run: Run, result: Json.Value)
    requires Depth(run.data) < DEPTH_LIMIT
    ensures Depth(FollowUp(run, result).data) == Depth(run.data) + 1
    ensures Levels(FollowUp(run, result).data) == Levels(run.data) - 1
  {
    assert -0x8000_0000_0000_0000 <= Depth(run.data);
  }

  // ── Steps ─────────────────────────────────────────────────────────────

  /** The channel, the runs in flight, and how many runs have finished. */
  datatype State = State(channel: seq<Event>, live: seq<Run>, finished: nat)

  /**
   * `Deliver`: the receiver takes the oldest event; `lost` when the query fails.
   * `Finish`: any live run ends, with a result or not; `connected` when the engine has a sender.
   */
  datatype Action =
    | Deliver(lost: bool)
    | Finish(i: nat, result: Option<Json.Value>, connected: bool)

  predicate Can(s: State, a: Action) {
    match a
    case Deliver(_) => s.channel != []
    case Finish(i, _, _) => i < |s.live|
  }

  function StartAll(rules: seq<Automation>, data: Json.Value): (runs: seq<Run>)
    ensures |runs| == |rules|
    ensures forall i :: 0 <= i < |runs| ==> runs[i].data == data
  {
    if rules == [] then [] else [Run(rules[0], data)] + StartAll(rules[1..], data)
  }

  /** `try_send` on a full channel drops the event. */
  function TrySend(channel: seq<Event>, e: Event): seq<Event> {
    if |channel| < CHANNEL_CAPACITY then channel + [e] else channel
  }

  function Do(rules: seq<Automation>, s: State, a: Action): State
    requires Can(s, a)
  {
    match a
    case Deliver(lost) =>
      var e := s.channel[0];
      s.(channel := s.channel[1..],
         live := if lost then s.live else s.live + StartAll(Matching(rules, e), e.data))
    case Finish(i, result, connected) =>
      var run := s.live[i];
      State(if result.Some? && Depth(run.data) < DEPTH_LIMIT && connected
            then TrySend(s.channel, FollowUp(run, result.value)) else s.channel,
            s.live[..i] + s.live[i + 1..],
            s.finished + 1)
  }

  predicate Legal(rules: seq<Automation>, s: State, acts: seq<Action>)
    decreases |acts|
  {
    acts != [] ==> Can(s, acts[0]) && Legal(rules, Do(rules, s, acts[0]), acts[1..])
  }

  function After(rules: seq<Automation>, s: State, acts: seq<Action>): State
    requires Legal(rules, s, acts)
    decreases |acts|
  {
    if acts == [] then s else After(rules, Do(rules, s, acts[0]), acts[1..])
  }

  function Fired(root: Event): State {
    State([root], [], 0)
  }

  // ── The potential ─────────────────────────────────────────────────────

  /**
   * What one run may still cause when follow-ups start at most `c` runs each
   * and `k` levels are left: runs when `toll` is 0, steps when it is 1.
   */
  function Budget(toll: nat, c: nat, k: nat): (b: nat)
    ensures b >= 1
  {
    if k <= 1 then 1 else 1 + toll + c * Budget(toll, c, k - 1)
  }

  function EventBudget(toll: nat, rules: seq<Automation>, e: Event): nat {
    toll + |Matching(rules, e)| * Budget(toll, Chained(rules), Levels(e.data))
  }

  function ChannelBudget(toll: nat, rules: seq<Automation>, channel: seq<Event>): nat {
    if channel == [] then 0
    else EventBudget(toll, rules, channel[0]) + ChannelBudget(toll, rules, channel[1..])
  }

  function LiveBudget(toll: nat, c: nat, live: seq<Run>): (b: nat)
    ensures b >= |live|
  {
    if live == [] then 0 else Budget(toll, c, Levels(live[0].data)) + LiveBudget(toll, c, live[1..])
  }

  function Potential(toll: nat, rules: seq<Automation>, s: State): nat {
    ChannelBudget(toll, rules, s.channel) + LiveBudget(toll, Chained(rules), s.live)
  }

  lemma {:induction false} ChannelBudgetAppend(toll: nat, rules: seq<Automation>, channel: seq<Event>, e: Event)
    ensures ChannelBudget(toll, rules, channel + [e]) == ChannelBudget(toll, rules, channel) + EventBudget(toll, rules, e)
  {
    if channel != [] {
      ChannelBudgetAppend(toll, rules, channel[1..], e);
      assert (channel + [e])[1..] == channel[1..] + [e];
    }
  }

  lemma {:induction false} LiveBudgetConcat(toll: nat, c: nat, a: seq<Run>, b: seq<Run>)
    ensures LiveBudget(toll, c, a + b) == LiveBudget(toll, c, a) + LiveBudget(toll, c, b)
  {
    if a == [] {
      assert a + b == b;
    } else {
      LiveBudgetConcat(toll, c, a[1..], b);
      assert (a + b)[1..] == a[1..] + b;
    }
  }

  lemma {:induction false} UniformBudget(toll: nat, c: nat, live: seq<Run>, data: Json.Value)
    requires forall i :: 0 <= i < |live| ==> live[i].data == data
    ensures LiveBudget(toll, c, live) == |live| * Budget(toll, c, Levels(data))
  {
    if live != [] {
      UniformBudget(toll, c, live[1..], data);
      Distribute(|live| - 1, 1, Budget(toll, c, Levels(data)));
    }
  }

  /** A run pays for its follow-up in advance. */
  lemma FollowUpIsPaid(toll: nat, rules: seq<Automation>, run: Run, result: Json.Value)
    requires Depth(run.data) < DEPTH_LIMIT
    ensures 1 + EventBudget(toll, rules, FollowUp(run, result)) <= Budget(toll, Chained(rules), Levels(run.data))
  {
    var e, c := FollowUp(run, result), Chained(rules);
    FollowUpIsOneLevelLower(run, result);
    FollowUpsStartChained(rules, e);
    ScaleLe(|Matching(rules, e)|, c, Budget(toll, c, Levels(e.data)));
  }

  /** Every step lowers the potential: a finish by at least one, a delivery by the toll. */
  lemma StepLowersPotential(toll: nat, rules: seq<Automation>, s: State, a: Action)
    requires Can(s, a)
    ensures Potential(toll, rules, Do(rules, s, a)) + (if a.Finish? then 1 else toll) <= Potential(toll, rules, s)
  {
    var c, s' := Chained(rules), Do(rules, s, a);
    match a {
      case Deliver(lost) =>
        var e := s.channel[0];
        UniformBudget(toll, c, StartAll(Matching(rules, e), e.data), e.data);
        LiveBudgetConcat(toll, c, s.live, StartAll(Matching(rules, e), e.data));
      case Finish(i, result, connected) =>
        var run := s.live[i];
        assert s.live == s.live[..i] + ([run] + s.live[i + 1..]);
        LiveBudgetConcat(toll, c, s.live[..i], [run] + s.live[i + 1..]);
        LiveBudgetConcat(toll, c, [run], s.live[i + 1..]);
        LiveBudgetConcat(toll, c, s.live[..i], s.live[i + 1..]);
        if s'.channel != s.channel {
          ChannelBudgetAppend(toll, rules, s.channel, FollowUp(run, result.value));
          FollowUpIsPaid(toll, rules, run, result.value);
        }
    }
  }

  // ── Termination and size of a cascade ─────────────────────────────────

  lemma {:induction false} RunsLowerPotential(rules: seq<Automation>, s: State, acts: seq<Action>)
    requires Legal(rules, s, acts)
    ensures |acts| + Potential(1, rules, After(rules, s, acts)) <= Potential(1, rules, s)
    ensures After(rules, s, acts).finished + Potential(0, rules, After(rules, s, acts))
            <= s.finished + Potential(0, rules, s)
    decreases |acts|
  {
    if acts != [] {
      StepLowersPotential(0, rules, s, acts[0]);
      StepLowersPotential(1, rules, s, acts[0]);
      RunsLowerPotential(rules, Do(rules, s, acts[0]), acts[1..]);
    }
  }

  /**
   * Every interleaving ends: whatever finishes, fails, is dropped or delayed,
   * a cascade has at most this many steps, and starts at most this many runs,
   * where `r` automations match the root and `c` react to completions.
   */
  lemma CascadeIsFinite(rules: seq<Automation>, root: Event, acts: seq<Action>)
    requires Legal(rules, Fired(root), acts)
    ensures var s := After(rules, Fired(root), acts);
            var r, c, k := |Matching(rules, root)|, Chained(rules), Levels(root.data);
            && |acts| <= 1 + r * Budget(1, c, k)
            && s.finished + |s.live| <= r * Budget(0, c, k)
  {
    RunsLowerPotential(rules, Fired(root), acts);
    FiredPotential(0, rules, root);
    FiredPotential(1, rules, root);
  }

  lemma FiredPotential(toll: nat, rules: seq<Automation>, root: Event)
    ensures Potential(toll, rules, Fired(root)) == EventBudget(toll, rules, root)
  {
    assert Fired(root).channel[1..] == [];
    assert ChannelBudget(toll, rules, []) == 0 && LiveBudget(toll, Chained(rules), []) == 0;
  }

  function Power(n: nat, k: nat): nat {
    if k == 0 then 1 else n * Power(n, k - 1)
  }

  /** `1 + c + c^2 + ... + c^(k-1)` */
  function Geometric(c: nat, k: nat): nat {
    if k == 0 then 0 else Geometric(c, k - 1) + Power(c, k - 1)
  }

  lemma {:induction false} GeometricShift(c: nat, k: nat)
    ensures Geometric(c, k + 1) == 1 + c * Geometric(c, k)
  {
    if k > 0 {
      GeometricShift(c, k - 1);
      Distribute(Geometric(c, k - 1), Power(c, k - 1), c);
    }
  }

  lemma {:induction false} BudgetIsGeometric(c: nat, k: nat)
    requires k >= 1
    ensures Budget(0, c, k) == Geometric(c, k)
  {
    GeometricShift(c, k - 1);
    if k > 1 {
      BudgetIsGeometric(c, k - 1);
    } else {
      assert Geometric(c, 1) == Geometric(c, 0) + Power(c, 0);
    }
  }

  lemma {:induction false} GeometricMonotone(c: nat, n: nat, k: nat)
    requires c <= n
    ensures Power(c, k) <= Power(n, k) && Geometric(c, k) <= Geometric(n, k)
  {
    if k > 0 {
      GeometricMonotone(c, n, k - 1);
      ScaleLe(c, n, Power(c, k - 1));
      ScaleLe(Power(c, k - 1), Power(n, k - 1), n);
    }
  }

  lemma {:induction false} BudgetMonotone(c: nat, j: nat, k: nat)
    requires j <= k
    ensures Budget(0, c, j) <= Budget(0, c, k)
    decreases k
  {
    if j > 1 {
      BudgetMonotone(c, j - 1, k - 1);
      ScaleLe(Budget(0, c, j - 1), Budget(0, c, k - 1), c);
    }
  }

  /** An event that carries no depth, or any that is not negative: at most `n + n^2 + ... + n^6` runs among `n` automations. */
  lemma SixLevelsOfRuns(rules: seq<Automation>, root: Event, acts: seq<Action>)
    requires Legal(rules, Fired(root), acts) && Depth(root.data) >= 0
    ensures var s, n := After(rules, Fired(root), acts), |rules|;
            s.finished + |s.live| <= Power(n, 1) + Power(n, 2) + Power(n, 3) + Power(n, 4) + Power(n, 5) + Power(n, 6)
  {
    var r, c, n := |Matching(rules, root)|, Chained(rules), |rules|;
    CascadeIsFinite(rules, root, acts);
    FollowUpsStartChained(rules, root);
    BudgetMonotone(c, Levels(root.data), 6);
    ScaleLe(Budget(0, c, Levels(root.data)), Budget(0, c, 6), r);
    BudgetIsGeometric(c, 6);
    GeometricMonotone(c, n, 6);
    ScaleLe(r, n, Geometric(c, 6));
    ScaleLe(Geometric(c, 6), Geometric(n, 6), n);
    PowersUpToSix(n);
  }

  lemma PowersUpToSix(n: nat)
    ensures n * Geometric(n, 6) == Power(n, 1) + Power(n, 2) + Power(n, 3) + Power(n, 4) + Power(n, 5) + Power(n, 6)
  {
    GeometricShift(n, 6);
    assert Geometric(n, 7) == Geometric(n, 6) + Power(n, 6);
    assert Geometric(n, 6) == Geometric(n, 5) + Power(n, 5);
    assert Geometric(n, 5) == Geometric(n, 4) + Power(n, 4);
    assert Geometric(n, 4) == Geometric(n, 3) + Power(n, 3);
    assert Geometric(n, 3) == Geometric(n, 2) + Power(n, 2);
    assert Geometric(n, 2) == Geometric(n, 1) + Power(n, 1);
    assert Geometric(n, 1) == Geometric(n, 0) + Power(n, 0);
  }

  /** Depths between the root's and the limit, whatever happens. */
  ghost predicate DepthsWithin(s: State, low: int, high: int) {
    && (forall i :: 0 <= i < |s.channel| ==> low <= Depth(s.channel[i].data) <= high)
    && (forall i :: 0 <= i < |s.live| ==> low <= Depth(s.live[i].data) <= high)
  }

  lemma {:induction false} DepthNeverExceedsLimit(rules: seq<Automation>, s: State, acts: seq<Action>, low: int, high: int)
    requires Legal(rules, s, acts) && DepthsWithin(s, low, high) && high >= DEPTH_LIMIT
    ensures DepthsWithin(After(rules, s, acts), low, high)
    decreases |acts|
  {
    if acts != [] {
      var a, s' := acts[0], Do(rules, s, acts[0]);
      if a.Finish? && s'.channel != s.channel {
        FollowUpIsOneLevelLower(s.live[a.i], a.result.value);
      }
      assert DepthsWithin(s', low, high);
      DepthNeverExceedsLimit(rules, s', acts[1..], low, high);
    }
  }

  lemma AfterTwo(rules: seq<Automation>, s: State, a: Action, b: Action, rest: seq<Action>)
    requires Can(s, a) && Can(Do(rules, s, a), b) && Legal(rules, Do(rules, Do(rules, s, a), b), rest)
    ensures Legal(rules, s, [a, b] + rest)
    ensures After(rules, s, [a, b] + rest) == After(rules, Do(rules, Do(rules, s, a), b), rest)
  {
    var acts := [a, b] + rest;
    assert acts[1..] == [b] + rest && acts[1..][1..] == rest;
    assert Legal(rules, Do(rules, s, a), acts[1..]);
  }

  /** An automation without conditions of its own. */
  predicate CatchAll(a: Automation, trigger: TriggerType) {
    a.enabled && a.trigger == trigger && a.config == Json.Obj(map[]) && a.condition.None?
  }

  /** One automation started by hand and one that reacts to every completion, its own included. */
  ghost predicate ManualThenChain(rules: seq<Automation>) {
    |rules| == 2 && CatchAll(rules[0], Manual) && CatchAll(rules[1], AutomationCompleted)
  }

  lemma PairMatches(rules: seq<Automation>, e: Event)
    requires ManualThenChain(rules)
    ensures e.trigger.Manual? ==> Matching(rules, e) == [rules[0]]
    ensures e.trigger.AutomationCompleted? ==> Matching(rules, e) == [rules[1]]
    ensures Chained(rules) == 1
  {
    var front := rules[..1];
    assert rules[..|rules| - 1] == front && front[..0] == [];
    assert Matching(front, e) == if Matches(rules[0], e) then [rules[0]] else [];
    assert Chained(front) == 0;
  }

  /** An event that starts one run, and that run with a result: two steps. */
  lemma DeliverAndFinish(rules: seq<Automation>, rule: Automation, e: Event, finished: nat)
    requires Matching(rules, e) == [rule]
    ensures var s, deliver, finish := State([e], [], finished), Deliver(false), Finish(0, Some(Json.Null), true);
            && Can(s, deliver) && Can(Do(rules, s, deliver), finish)
            && Do(rules, Do(rules, s, deliver), finish)
               == State(if Depth(e.data) < DEPTH_LIMIT then [FollowUp(Run(rule, e.data), Json.Null)] else [], [], finished + 1)
  {
    var s, run := State([e], [], finished), Run(rule, e.data);
    assert StartAll([rule], e.data) == [run];
    assert Do(rules, s, Deliver(false)) == State([], [run], finished);
  }

  /** Each run starts the next until the levels are used up. */
  lemma {:induction false} ChainRunsOut(rules: seq<Automation>, e: Event, finished: nat) returns (acts: seq<Action>)
    requires ManualThenChain(rules) && (e.trigger.Manual? || e.trigger.AutomationCompleted?)
    ensures var s := State([e], [], finished);
            && Legal(rules, s, acts)
            && After(rules, s, acts) == State([], [], finished + Levels(e.data))
    decreases Levels(e.data)
  {
    var s, deliver, finish := State([e], [], finished), Deliver(false), Finish(0, Some(Json.Null), true);
    var rule := if e.trigger.Manual? then rules[0] else rules[1];
    PairMatches(rules, e);
    DeliverAndFinish(rules, rule, e, finished);
    var rest := [];
    if Depth(e.data) < DEPTH_LIMIT {
      var next := FollowUp(Run(rule, e.data), Json.Null);
      FollowUpIsOneLevelLower(Run(rule, e.data), Json.Null);
      rest := ChainRunsOut(rules, next, finished + 1);
    }
    acts := [deliver, finish] + rest;
    AfterTwo(rules, s, deliver, finish, rest);
  }

  lemma {:induction false} BudgetOfChain(k: nat)
    requires k >= 1
    ensures Budget(0, 1, k) == k
  {
    if k > 1 {
      BudgetOfChain(k - 1);
    }
  }

  lemma RunsWithin(rules: seq<Automation>, root: Event, acts: seq<Action>, r: nat, c: nat, k: nat)
    requires Legal(rules, Fired(root), acts)
    requires r == |Matching(rules, root)| && c == Chained(rules) && k == Levels(root.data)
    ensures var s := After(rules, Fired(root), acts); s.finished + |s.live| <= r * Budget(0, c, k)
  {
    CascadeIsFinite(rules, root, acts);
  }

  /** No order of events makes such a pair run more often than its levels allow. */
  lemma ChainRunsAtMost(rules: seq<Automation>, root: Event, acts: seq<Action>)
    requires ManualThenChain(rules) && root.trigger.Manual? && Legal(rules, Fired(root), acts)
    ensures var s := After(rules, Fired(root), acts); s.finished + |s.live| <= Levels(root.data)
  {
    var k := Levels(root.data);
    PairMatches(rules, root);
    RunsWithin(rules, root, acts, 1, 1, k);
    BudgetOfChain(k);
    assert 1 * Budget(0, 1, k) == k;
  }

  ghost predicate AtMostRuns(rules: seq<Automation>, root: Event, n: nat) {
    forall acts :: Legal(rules, Fired(root), acts) ==>
      var s := After(rules, Fired(root), acts); s.finished + |s.live| <= n
  }

  /**
   * The bound is attained, and the limit of five is a limit only on depths the
   * engine wrote itself: an automation started by hand, with one reacting to
   * every completion, makes at most six runs if and only if the data handed
   * in carries no negative depth.
   */
  lemma SixRunsIff(rules: seq<Automation>, root: Event)
    requires ManualThenChain(rules) && root.trigger.Manual?
    ensures AtMostRuns(rules, root, 6) <==> Depth(root.data) >= 0
  {
    if Depth(root.data) >= 0 {
      forall acts | Legal(rules, Fired(root), acts)
        ensures var s := After(rules, Fired(root), acts); s.finished + |s.live| <= 6
      {
        ChainRunsAtMost(rules, root, acts);
      }
    } else {
      var acts := ChainRunsOut(rules, root, 0);
      assert Fired(root) == State([root], [], 0);
      assert Legal(rules, Fired(root), acts);
    }
  }
}
