/** The budgeted reducer and the bounds on every run of it. */
module ResolverTransition {
  import opened Outcomes
  import opened ResolverModels
  import opened ResolverClassify

  /** One call of the reducer: what it is given besides the state and the policy. */
  datatype Input = Input(snapshot: Snapshot, signature: Option<string>, ciFailuresFirst: bool)

  datatype Metadata = NoMetadata | Remediation(skill: string, attempt: int)

  datatype Transition = Transition(state: ResolverState, decision: Decision, action: Action, metadata: Metadata)

  predicate Truthy(signature: Option<string>) {
    signature.Some? && signature.value != ""
  }

  function Exhausted(reason: Reason): Decision {
    Decision(ManualReview, reason, StopManualReview, None, Some(TerminalManualReview))
  }

  function Reduce(previous: ResolverState, policy: Policy, input: Input): Transition {
    var decision := Classify(input.snapshot, input.ciFailuresFirst);
    match decision.action
    case AttemptMerge =>
      if previous.finalizeAttempts >= policy.maxFinalizeAttempts then
        Transition(previous, Exhausted(FinalizeBudgetExhausted), StopManualReview, NoMetadata)
      else
        Transition(previous.(finalizeAttempts := previous.finalizeAttempts + 1), decision, decision.action, NoMetadata)
    case RunRemediation =>
      var skill := if decision.remediationSkill.Some? then decision.remediationSkill.value else "";
      var identical :=
        if Truthy(input.signature) && input.signature == previous.lastProgressSignature then previous.identicalBlockerCount + 1 else 0;
      var count := previous.RemediationCount(skill);
      if identical >= policy.maxIdenticalBlockersWithoutProgress || count >= policy.maxRemediationsPerType then
        Transition(previous, Exhausted(RepeatedBlockerWithoutProgress), StopManualReview, NoMetadata)
      else
        var state := ResolverState(
          previous.finalizeAttempts,
          Upsert(SortedItems(previous.remediationCounts), skill, count + 1),
          identical,
          input.signature);
        Transition(state, decision, decision.action, Remediation(skill, count + 1))
    case _ => Transition(previous, decision, decision.action, NoMetadata)
  }

  // ----------------------------------------------------------- the measure

  function Left(policy: Policy, state: ResolverState, skill: string): nat {
    Pos(policy.maxRemediationsPerType - state.RemediationCount(skill))
  }

  /** Merge attempts and remediations that the budgets still allow. */
  function Measure(policy: Policy, state: ResolverState): nat {
    Pos(policy.maxFinalizeAttempts - state.finalizeAttempts)
    + Left(policy, state, FIX_COMMENTS) + Left(policy, state, FIX_CI) + Left(policy, state, FIX_MERGE_CONFLICTS)
  }

  /** Nothing is left exactly when every budget is used up. */
  lemma NothingLeft(policy: Policy, state: ResolverState)
    ensures Measure(policy, state) == 0 <==>
      && policy.maxFinalizeAttempts <= state.finalizeAttempts
      && policy.maxRemediationsPerType <= state.RemediationCount("fix-comments")
      && policy.maxRemediationsPerType <= state.RemediationCount("fix-ci")
      && policy.maxRemediationsPerType <= state.RemediationCount("fix-merge-conflicts")
  {
  }

  predicate Spends(action: Action) {
    action.AttemptMerge? || action.RunRemediation?
  }

  /** What one remediation does to the counts. */
  lemma RemediationCounts(previous: ResolverState, policy: Policy, input: Input, skill: string)
    requires Reduce(previous, policy, input).action.RunRemediation?
    ensures var t := Reduce(previous, policy, input);
      && t.metadata.Remediation?
      && t.metadata.skill in {FIX_COMMENTS, FIX_CI, FIX_MERGE_CONFLICTS}
      && t.decision.remediationSkill == Some(t.metadata.skill)
      && t.metadata.attempt == previous.RemediationCount(t.metadata.skill) + 1
      && t.state.RemediationCount(skill) == previous.RemediationCount(skill) + (if skill == t.metadata.skill then 1 else 0)
      && previous.RemediationCount(t.metadata.skill) < policy.maxRemediationsPerType
      && StrictlySorted(t.state.remediationCounts)
  {
    hide Classify, SortedItems, Upsert, StrictlySorted, Lookup;
    RemediationNamesSkill(input.snapshot, input.ciFailuresFirst);
    var t := Reduce(previous, policy, input);
    SortedItemsCorrect(previous.remediationCounts, skill);
    UpsertSorted(SortedItems(previous.remediationCounts), t.metadata.skill, t.metadata.attempt);
    UpsertLookup(SortedItems(previous.remediationCounts), t.metadata.skill, t.metadata.attempt, skill);
  }

  /**
    When a remediation is run, and which: the one that the snapshot calls for, unless its skill
    has used up its runs or the same blocker has come back too often.
   */
  lemma ReducerRemediatesExactly(previous: ResolverState, policy: Policy, input: Input)
    ensures var t := Reduce(previous, policy, input);
      var s := input.snapshot;
      var repeats :=
        if input.signature.Some? && input.signature.value != "" && previous.lastProgressSignature == input.signature
        then previous.identicalBlockerCount + 1 else 0;
      var fixable := Workable(s) && !s.mergeConflict && Trusted(s, input.ciFailuresFirst);
      var progressing := repeats < policy.maxIdenticalBlockersWithoutProgress;
      && (t.metadata.Remediation? <==> t.action == RunRemediation)
      && (t.metadata.Remediation? && t.metadata.skill == "fix-merge-conflicts" <==>
           Workable(s) && s.mergeConflict && progressing && previous.RemediationCount("fix-merge-conflicts") < policy.maxRemediationsPerType)
      && (t.metadata.Remediation? && t.metadata.skill == "fix-comments" <==>
           fixable && s.actionableComments && progressing && previous.RemediationCount("fix-comments") < policy.maxRemediationsPerType)
      && (t.metadata.Remediation? && t.metadata.skill == "fix-ci" <==>
           fixable && !s.actionableComments && s.checksFailed && progressing && previous.RemediationCount("fix-ci") < policy.maxRemediationsPerType)
  {
    RemediationExactly(input.snapshot, input.ciFailuresFirst);
    RemediationNamesSkill(input.snapshot, input.ciFailuresFirst);
    SkillNamesDiffer();
    hide Classify, Workable, Trusted;
  }

  /** A result that a budget forbids becomes a terminal hand-over that says which budget it was. */
  lemma ReducerStopsExactly(previous: ResolverState, policy: Policy, input: Input)
    ensures var t := Reduce(previous, policy, input);
      var s := input.snapshot;
      var merging := NothingToFix(s, input.ciFailuresFirst) && s.checksComplete && !s.mergeabilityUnknown && !s.automatedReviewPending && s.checksPassing;
      var fixing := Workable(s) && (s.mergeConflict || (Trusted(s, input.ciFailuresFirst) && (s.actionableComments || s.checksFailed)));
      && (t.decision.reasonCode == FinalizeBudgetExhausted <==> merging && previous.finalizeAttempts >= policy.maxFinalizeAttempts)
      && (t.decision.reasonCode == RepeatedBlockerWithoutProgress <==> fixing && t.action != RunRemediation)
      && (t.decision.reasonCode == FinalizeBudgetExhausted || t.decision.reasonCode == RepeatedBlockerWithoutProgress ==>
           && t.action == StopManualReview && t.state == previous && t.metadata == NoMetadata
           && t.decision.terminalStatus == Some(TerminalManualReview) && t.decision.remediationSkill == None)
      && (t.action == AttemptMerge <==> merging && previous.finalizeAttempts < policy.maxFinalizeAttempts)
  {
    OtherActionsExactly(input.snapshot, input.ciFailuresFirst);
    hide Upsert, SortedItems;
  }

  lemma SkillsDiffer()
    ensures FIX_COMMENTS != FIX_CI && FIX_CI != FIX_MERGE_CONFLICTS && FIX_COMMENTS != FIX_MERGE_CONFLICTS
  {
    assert |FIX_COMMENTS| == 12 && |FIX_CI| == 6 && |FIX_MERGE_CONFLICTS| == 19;
  }

  /** The measure drops by exactly one on each merge attempt or remediation; any other result leaves the state alone. */
  lemma MeasureStep(previous: ResolverState, policy: Policy, input: Input)
    ensures var t := Reduce(previous, policy, input);
      if Spends(t.action) then Measure(policy, t.state) == Measure(policy, previous) - 1 else t.state == previous
  {
    var t := Reduce(previous, policy, input);
    if t.action.RunRemediation? {
      RemediationCounts(previous, policy, input, FIX_COMMENTS);
      RemediationCounts(previous, policy, input, FIX_CI);
      RemediationCounts(previous, policy, input, FIX_MERGE_CONFLICTS);
      SkillsDiffer();
    }
  }

  // ------------------------------------------------------------------ runs

  ghost function StateAfter(start: ResolverState, policy: Policy, inputs: seq<Input>): ResolverState {
    if inputs == [] then start else
      Reduce(StateAfter(start, policy, inputs[..|inputs| - 1]), policy, inputs[|inputs| - 1]).state
  }

  ghost function LastResult(start: ResolverState, policy: Policy, inputs: seq<Input>): Transition
    requires inputs != []
  {
    Reduce(StateAfter(start, policy, inputs[..|inputs| - 1]), policy, inputs[|inputs| - 1])
  }

  ghost function MergeAttempts(start: ResolverState, policy: Policy, inputs: seq<Input>): nat {
    if inputs == [] then 0 else
      MergeAttempts(start, policy, inputs[..|inputs| - 1]) + (if LastResult(start, policy, inputs).action.AttemptMerge? then 1 else 0)
  }

  /** A remediation that was run: its skill and the progress signature it ran under. */
  datatype Ran = Ran(skill: string, signature: Option<string>)

  ghost function Remediations(start: ResolverState, policy: Policy, inputs: seq<Input>): seq<Ran> {
    if inputs == [] then [] else
      var last := LastResult(start, policy, inputs);
      Remediations(start, policy, inputs[..|inputs| - 1])
      + (if last.action.RunRemediation? && last.decision.remediationSkill.Some?
         then [Ran(last.decision.remediationSkill.value, inputs[|inputs| - 1].signature)] else [])
  }

  /** However long a run is, it makes at most as many merge attempts and remediations as the measure of its start. */
  lemma {:induction false} RunIsBounded(start: ResolverState, policy: Policy, inputs: seq<Input>)
    ensures MergeAttempts(start, policy, inputs) + |Remediations(start, policy, inputs)| + Measure(policy, StateAfter(start, policy, inputs))
         == Measure(policy, start)
  {
    if inputs != [] {
      var earlier := inputs[..|inputs| - 1];
      RunIsBounded(start, policy, earlier);
      MeasureStep(StateAfter(start, policy, earlier), policy, inputs[|inputs| - 1]);
      RemediationNamesSkill(inputs[|inputs| - 1].snapshot, inputs[|inputs| - 1].ciFailuresFirst);
    }
  }

  function CountSkill(ran: seq<Ran>, skill: string): nat {
    if ran == [] then 0 else CountSkill(ran[..|ran| - 1], skill) + (if ran[|ran| - 1].skill == skill then 1 else 0)
  }

  /** How many remediations in a row, before the last one, already ran under its non-empty signature. */
  function TrailingRepeats(ran: seq<Ran>): nat {
    if |ran| < 2 then 0
    else if Truthy(ran[|ran| - 1].signature) && ran[|ran| - 1].signature == ran[|ran| - 2].signature then TrailingRepeats(ran[..|ran| - 1]) + 1
    else 0
  }

  /** One more input changes a run's state and its remediations in one of three ways. */
  lemma LastStep(start: ResolverState, policy: Policy, inputs: seq<Input>, skill: string)
    requires inputs != []
    ensures var earlier := inputs[..|inputs| - 1];
      var before, after := StateAfter(start, policy, earlier), StateAfter(start, policy, inputs);
      var ran := Remediations(start, policy, inputs);
      match LastResult(start, policy, inputs).action
      case RunRemediation =>
        && ran != [] && ran[..|ran| - 1] == Remediations(start, policy, earlier)
        && after.finalizeAttempts == before.finalizeAttempts
        && after.RemediationCount(skill) == before.RemediationCount(skill) + (if skill == ran[|ran| - 1].skill then 1 else 0)
        && StrictlySorted(after.remediationCounts)
        && after.lastProgressSignature == ran[|ran| - 1].signature
        && after.identicalBlockerCount < policy.maxIdenticalBlockersWithoutProgress
        && after.identicalBlockerCount
           == (if Truthy(after.lastProgressSignature) && after.lastProgressSignature == before.lastProgressSignature
               then before.identicalBlockerCount + 1 else 0)
      case AttemptMerge =>
        ran == Remediations(start, policy, earlier) && after == before.(finalizeAttempts := before.finalizeAttempts + 1)
      case _ =>
        ran == Remediations(start, policy, earlier) && after == before
  {
    hide Classify, Upsert, SortedItems, Measure;
    var earlier := inputs[..|inputs| - 1];
    var before := StateAfter(start, policy, earlier);
    MeasureStep(before, policy, inputs[|inputs| - 1]);
    if LastResult(start, policy, inputs).action.RunRemediation? {
      RemediationCounts(before, policy, inputs[|inputs| - 1], skill);
    }
  }

  /** The counters of any run are functions of what it did. */
  lemma {:induction false} CountsAreHistory(start: ResolverState, policy: Policy, inputs: seq<Input>, skill: string)
    ensures var s := StateAfter(start, policy, inputs);
      && s.finalizeAttempts == start.finalizeAttempts + MergeAttempts(start, policy, inputs)
      && s.RemediationCount(skill) == start.RemediationCount(skill) + CountSkill(Remediations(start, policy, inputs), skill)
      && (StrictlySorted(start.remediationCounts) ==> StrictlySorted(s.remediationCounts))
  {
    if inputs != [] {
      CountsAreHistory(start, policy, inputs[..|inputs| - 1], skill);
      LastStep(start, policy, inputs, skill);
    }
  }

  /** From the default state, the blocker memory is the history too. */
  lemma {:induction false} BlockersAreHistory(policy: Policy, inputs: seq<Input>)
    ensures var ran := Remediations(ResolverState(), policy, inputs);
      var s := StateAfter(ResolverState(), policy, inputs);
      && s.lastProgressSignature == (if ran == [] then None else ran[|ran| - 1].signature)
      && s.identicalBlockerCount == TrailingRepeats(ran)
      && (ran != [] ==> TrailingRepeats(ran) < policy.maxIdenticalBlockersWithoutProgress)
  {
    hide Reduce;
    if inputs != [] {
      BlockersAreHistory(policy, inputs[..|inputs| - 1]);
      LastStep(ResolverState(), policy, inputs, FIX_CI);
    }
  }

  /** Every stage of the list of remediations is itself the list of a shorter run. */
  lemma {:induction false} RemediationPrefix(start: ResolverState, policy: Policy, inputs: seq<Input>, n: nat) returns (m: nat)
    requires n <= |Remediations(start, policy, inputs)|
    ensures m <= |inputs| && Remediations(start, policy, inputs[..m]) == Remediations(start, policy, inputs)[..n]
  {
    if n == |Remediations(start, policy, inputs)| {
      m := |inputs|;
      assert inputs[..m] == inputs;
    } else {
      var earlier := inputs[..|inputs| - 1];
      m := RemediationPrefix(start, policy, earlier, n);
      assert earlier[..m] == inputs[..m];
    }
  }

  lemma {:induction false} SameSignatureRepeats(ran: seq<Ran>, a: nat)
    requires a < |ran| && Truthy(ran[a].signature)
    requires forall i :: a <= i < |ran| ==> ran[i].signature == ran[a].signature
    ensures TrailingRepeats(ran) >= |ran| - a - 1
  {
    if |ran| - a > 1 {
      SameSignatureRepeats(ran[..|ran| - 1], a);
    }
  }

  /** From the default state, no more than the allowed number of consecutive remediations share one non-empty signature. */
  lemma RepeatedBlockersBounded(policy: Policy, inputs: seq<Input>, a: nat, b: nat)
    requires a < b <= |Remediations(ResolverState(), policy, inputs)|
    requires var ran := Remediations(ResolverState(), policy, inputs);
      Truthy(ran[a].signature) && forall i :: a <= i < b ==> ran[i].signature == ran[a].signature
    ensures b - a <= policy.maxIdenticalBlockersWithoutProgress
  {
    var ran := Remediations(ResolverState(), policy, inputs);
    var m := RemediationPrefix(ResolverState(), policy, inputs, b);
    BlockersAreHistory(policy, inputs[..m]);
    SameSignatureRepeats(ran[..b], a);
  }

  /** The attempt number reported for a remediation is one more than the runs of that skill before it. */
  lemma AttemptNumbersCount(policy: Policy, inputs: seq<Input>)
    requires inputs != [] && LastResult(ResolverState(), policy, inputs).action.RunRemediation?
    ensures var t := LastResult(ResolverState(), policy, inputs);
      && t.metadata.Remediation?
      && t.metadata.attempt == CountSkill(Remediations(ResolverState(), policy, inputs[..|inputs| - 1]), t.metadata.skill) + 1
      && t.metadata.attempt <= policy.maxRemediationsPerType
  {
    var earlier := inputs[..|inputs| - 1];
    RemediationCounts(StateAfter(ResolverState(), policy, earlier), policy, inputs[|inputs| - 1], FIX_CI);
    CountsAreHistory(ResolverState(), policy, earlier, LastResult(ResolverState(), policy, inputs).metadata.skill);
  }

  /** With the default policy a run from the default state spends at most 66 actions, and what it has not spent is left. */
  lemma DefaultRunBound(inputs: seq<Input>)
    ensures MergeAttempts(ResolverState(), Policy(), inputs) + |Remediations(ResolverState(), Policy(), inputs)|
      + Measure(Policy(), StateAfter(ResolverState(), Policy(), inputs)) == 66
    ensures MergeAttempts(ResolverState(), Policy(), inputs) <= 60
    ensures |Remediations(ResolverState(), Policy(), inputs)| <= 6
  {
    RunIsBounded(ResolverState(), Policy(), inputs);
    CountsAreHistory(ResolverState(), Policy(), inputs, FIX_CI);
    FinalizeBounded(inputs);
  }

  lemma {:induction false} FinalizeBounded(inputs: seq<Input>)
    ensures StateAfter(ResolverState(), Policy(), inputs).finalizeAttempts <= 60
  {
    if inputs != [] {
      FinalizeBounded(inputs[..|inputs| - 1]);
    }
  }
}
