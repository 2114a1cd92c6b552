/**
 * Which automations an event starts, and what a step of the cascade does:
 * the filters one by one, what a follow-up event tells, the bounded channel.
 */
module Triggers {
  import opened Prelude
  import opened Cascade
  import Json

  // ── Why an automation stays out ───────────────────────────────────────

  /** A record event on one collection, an automation for another. */
  predicate WantsOtherCollection(a: Automation, e: Event) {
    && (e.trigger == RecordCreated || e.trigger == RecordUpdated || e.trigger == RecordDeleted)
    && e.collection.Some?
    && Json.Get(a.config, "collection").Some?
    && var wanted := Json.Get(a.config, "collection").value;
       wanted.Str? && wanted != Json.Str(e.collection.value)
  }

  /** The completion of one automation, an automation waiting for another; data without a source has the empty one. */
  predicate WantsOtherSource(a: Automation, e: Event) {
    && e.trigger == AutomationCompleted
    && Json.Get(a.config, "automation_id").Some?
    && var wanted := Json.Get(a.config, "automation_id").value;
       var source := match Json.Get(e.data, "source_automation_id")
                     case Some(Str(id)) => id
                     case _ => "";
       wanted.Str? && wanted != Json.Str(source)
  }

  /** An object that is not contained in the data: merging it in would change something. */
  predicate AsksForMore(condition: Json.Value, data: Json.Value) {
    condition.Obj? && if data.Obj? then data.fields + condition.fields != data.fields else condition.fields != map[]
  }

  lemma SatisfiedIff(condition: Json.Value, data: Json.Value)
    ensures Satisfies(condition, data) <==> !AsksForMore(condition, data)
  {
    if condition.Obj? && data.Obj? {
      var merged := data.fields + condition.fields;
      if Satisfies(condition, data) {
        assert merged == data.fields;
      } else {
        var key :| key in condition.fields && !(key in data.fields && data.fields[key] == condition.fields[key]);
        assert key in merged && merged[key] == condition.fields[key];
      }
    }
  }

  predicate StaysOut(a: Automation, e: Event) {
    || !a.enabled || a.trigger != e.trigger
    || WantsOtherCollection(a, e) || WantsOtherSource(a, e)
    || (a.condition.Some? && AsksForMore(a.condition.value, e.data))
  }

  lemma MatchesIff(a: Automation, e: Event)
    ensures Matches(a, e) <==> !StaysOut(a, e)
  {
    if a.condition.Some? {
      SatisfiedIff(a.condition.value, e.data);
    }
  }

  /** An automation is started as often as it is listed, or, for one of five reasons, not at all. */
  lemma {:induction false} StartedIff(rules: seq<Automation>, e: Event, a: Automation)
    ensures multiset(Matching(rules, e))[a] == if StaysOut(a, e) then 0 else multiset(rules)[a]
    ensures a in Matching(rules, e) <==> a in rules && !StaysOut(a, e)
  {
    MatchesIff(a, e);
    StartedAsListed(rules, e, a);
    assert a in Matching(rules, e) <==> multiset(Matching(rules, e))[a] > 0;
    assert a in rules <==> multiset(rules)[a] > 0;
  }

  lemma {:induction false} StartedAsListed(rules: seq<Automation>, e: Event, a: Automation)
    ensures multiset(Matching(rules, e))[a] == if Matches(a, e) then multiset(rules)[a] else 0
  {
    if rules != [] {
      var front, last := rules[..|rules| - 1], rules[|rules| - 1];
      StartedAsListed(front, e, a);
      assert rules == front + [last];
    }
  }

  /** In the order of the list. */
  lemma {:induction false} StartedInOrder(some: seq<Automation>, more: seq<Automation>, e: Event)
    ensures Matching(some + more, e) == Matching(some, e) + Matching(more, e)
  {
    if more == [] {
      assert some + more == some;
    } else {
      var n := |more| - 1;
      StartedInOrder(some, more[..n], e);
      assert (some + more)[..|some + more| - 1] == some + more[..n];
    }
  }

  // ── What that means for record events and for completions ─────────────

  /** A record event starts the unconditional automations for its collection and those for any, no others. */
  lemma RecordEventStartsIff(rules: seq<Automation>, e: Event, a: Automation, mine: string, theirs: string)
    requires e.trigger == RecordCreated || e.trigger == RecordUpdated || e.trigger == RecordDeleted
    requires a in rules && a.enabled && a.trigger == e.trigger && a.condition.None?
    ensures Json.Get(a.config, "collection") == Some(Json.Str(mine)) && e.collection == Some(theirs)
            ==> (a in Matching(rules, e) <==> mine == theirs)
    ensures Json.Get(a.config, "collection").None? || e.collection.None? ==> a in Matching(rules, e)
  {
    StartedIff(rules, e, a);
  }

  /** A follow-up starts an automation that waits for one source exactly when that is the run's automation. */
  lemma FollowUpStartsIff(rules: seq<Automation>, a: Automation, run: Run, result: Json.Value, id: string)
    requires a in rules && a.enabled && a.trigger == AutomationCompleted && a.condition.None?
    ensures Json.Get(a.config, "automation_id") == Some(Json.Str(id))
            ==> (a in Matching(rules, FollowUp(run, result)) <==> id == run.automation.id)
    ensures Json.Get(a.config, "automation_id").None? ==> a in Matching(rules, FollowUp(run, result))
  {
    StartedIff(rules, FollowUp(run, result), a);
  }

  /** A condition with a key that the data lacks or contradicts keeps its automation out. */
  lemma UnmetConditionKeepsOut(rules: seq<Automation>, e: Event, a: Automation, key: string)
    requires a.condition.Some? && Json.Get(a.condition.value, key).Some?
    requires Json.Get(e.data, key) != Json.Get(a.condition.value, key)
    ensures a !in Matching(rules, e)
  {
    var condition := a.condition.value;
    if e.data.Obj? {
      var merged := e.data.fields + condition.fields;
      assert key in merged && merged[key] == condition.fields[key];
    }
    StartedIff(rules, e, a);
  }

  /** A follow-up says which automation ran, on what and with which result, one level deeper. */
  lemma FollowUpTells(run: Run, result: Json.Value)
    ensures var e := FollowUp(run, result);
            && e.trigger == AutomationCompleted && e.collection == None
            && Json.Get(e.data, "source_automation_id") == Some(Json.Str(run.automation.id))
            && Json.Get(e.data, "source_automation_name") == Some(Json.Str(run.automation.name))
            && Json.Get(e.data, "result") == Some(result)
            && Json.Get(e.data, "trigger_data") == Some(run.data)
            && Json.Get(e.data, "_chain_depth") == Some(Json.Int(Depth(run.data) + 1))
            && |e.data.fields| == 5
  {
    var keys := {"source_automation_id", "source_automation_name", "result", "trigger_data", "_chain_depth"};
    assert FollowUp(run, result).data.fields.Keys == keys && |keys| == 5;
  }

  // ── Steps ─────────────────────────────────────────────────────────────

  /**
   * A delivery takes the oldest event and starts, for every automation that
   * does not stay out, one run on the event's data; a lost one starts nothing.
   */
  lemma DeliveryStarts(rules: seq<Automation>, s: State, lost: bool, a: Automation, data: Json.Value)
    requires s.channel != []
    ensures var e, s' := s.channel[0], Do(rules, s, Deliver(lost));
            && s.channel == [e] + s'.channel && s'.finished == s.finished && s.live <= s'.live
            && var started := s'.live[|s.live|..];
               && (lost ==> started == [])
               && multiset(started)[Run(a, data)]
                  == if lost || data != e.data || StaysOut(a, e) then 0 else multiset(rules)[a]
  {
    var e, s' := s.channel[0], Do(rules, s, Deliver(lost));
    var started := s'.live[|s.live|..];
    if !lost {
      assert started == StartAll(Matching(rules, e), e.data);
      StartedRuns(rules, e, a, data);
    }
  }

  lemma StartedRuns(rules: seq<Automation>, e: Event, a: Automation, data: Json.Value)
    ensures multiset(StartAll(Matching(rules, e), e.data))[Run(a, data)]
            == if data != e.data || StaysOut(a, e) then 0 else multiset(rules)[a]
  {
    StartedIff(rules, e, a);
    RunsOf(Matching(rules, e), e.data, a, data);
  }

  lemma {:induction false} RunsOf(rules: seq<Automation>, data: Json.Value, a: Automation, other: Json.Value)
    ensures multiset(StartAll(rules, data))[Run(a, other)] == if data == other then multiset(rules)[a] else 0
  {
    if rules != [] {
      RunsOf(rules[1..], data, a, other);
      assert rules == [rules[0]] + rules[1..];
      assert StartAll(rules, data) == [Run(rules[0], data)] + StartAll(rules[1..], data);
    }
  }

  /** The end of a run emits exactly if it has a result, is less than five deep, and the channel is there and below 1024. */
  lemma FinishEmitsIff(rules: seq<Automation>, s: State, i: nat, result: Option<Json.Value>, connected: bool)
    requires i < |s.live|
    ensures var s' := Do(rules, s, Finish(i, result, connected));
            && multiset(s.live) == multiset(s'.live) + multiset{s.live[i]}
            && (s'.channel != s.channel <==> result.Some? && Depth(s.live[i].data) < 5 && connected && |s.channel| < 1024)
            && (s'.channel != s.channel ==> s'.channel == s.channel + [FollowUp(s.live[i], result.value)])
  {
    assert s.live == s.live[..i] + [s.live[i]] + s.live[i + 1..];
  }

  /** The channel never holds more than 1024 events. */
  lemma {:induction false} ChannelStaysBounded(rules: seq<Automation>, s: State, acts: seq<Action>)
    requires Legal(rules, s, acts) && |s.channel| <= 1024
    ensures |After(rules, s, acts).channel| <= 1024
    decreases |acts|
  {
    if acts != [] {
      ChannelStaysBounded(rules, Do(rules, s, acts[0]), acts[1..]);
    }
  }
}
