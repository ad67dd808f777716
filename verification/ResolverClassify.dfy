/** The fail-closed classification of a canonical snapshot. */
module ResolverClassify {
  import opened Outcomes
  import opened ResolverModels

  const FIX_COMMENTS := "fix-comments"
  const FIX_CI := "fix-ci"
  const FIX_MERGE_CONFLICTS := "fix-merge-conflicts"

  function SkillFor(classification: Classification): Option<string> {
    match classification
    case ActionableComments => Some(FIX_COMMENTS)
    case CiFailures => Some(FIX_CI)
    case MergeConflicts => Some(FIX_MERGE_CONFLICTS)
    case _ => None
  }

  function Decide(classification: Classification, reason: Reason, action: Action, terminalStatus: Option<TerminalStatus> := None): Decision {
    Decision(classification, reason, action, SkillFor(classification), terminalStatus)
  }

  function Classify(s: Snapshot, ciFailuresFirst: bool): Decision {
    if s.merged then Decide(AlreadyMerged, ReasonAlreadyMerged, PublishTerminal, Some(TerminalAlreadyMerged))
    else if !s.open then Decide(ManualReview, PullRequestClosed, StopManualReview, Some(TerminalManualReview))
    else if s.draft then Decide(ManualReview, DraftPullRequest, StopManualReview)
    else if !s.publishAvailable then Decide(ManualReview, PublishUnavailable, StopManualReview)
    else if s.mergeConflict then Decide(MergeConflicts, ReasonMergeConflicts, RunRemediation)
    else if !s.commentsAvailable then Decide(ManualReview, CommentsUnavailable, StopManualReview)
    else if !s.commentPolicyEnforced then Decide(ManualReview, CommentPolicyNotEnforced, StopManualReview)
    else if s.checksDegraded && (!s.checksFailed || !ciFailuresFirst) then Decide(ManualReview, CiSignalDegraded, StopManualReview)
    else if s.unknownBlocker then Decide(ManualReview, UnknownBlocker, StopManualReview)
    else if s.malformed then Decide(ManualReview, SnapshotMalformed, StopManualReview)
    else if s.actionableComments then Decide(ActionableComments, ReasonActionableComments, RunRemediation)
    else if s.checksFailed then Decide(CiFailures, ReasonCiFailures, RunRemediation)
    else if s.automatedReviewPending then Decide(ReviewGrace, ReasonReviewGrace, Wait)
    else if s.checksSignalAvailable && !s.checksComplete then Decide(CiRunning, ReasonCiRunning, Wait)
    else if s.mergeabilityUnknown then Decide(MergeabilityTransient, ExternalStateTransient, Wait)
    else if !s.checksComplete then Decide(CiRunning, ReasonCiRunning, Wait)
    else if s.checksPassing then Decide(ReadyToMerge, ReasonReadyToMerge, AttemptMerge)
    else Decide(ManualReview, UnknownBlocker, StopManualReview)
  }

  /** Only the three known skills are ever run, and a decision names a skill exactly when it runs one. */
  lemma RemediationNamesSkill(s: Snapshot, ciFailuresFirst: bool)
    ensures var d := Classify(s, ciFailuresFirst);
      && (d.action.RunRemediation? <==> d.remediationSkill.Some?)
      && (d.remediationSkill.Some? ==> d.remediationSkill.value in {FIX_COMMENTS, FIX_CI, FIX_MERGE_CONFLICTS})
  {
  }

  /** Nothing that comes before the checks and the comments is in the way. */
  predicate Workable(s: Snapshot) {
    !s.merged && s.open && !s.draft && s.publishAvailable
  }

  /** The evidence about comments and checks can be trusted. */
  predicate Trusted(s: Snapshot, ciFailuresFirst: bool) {
    && s.commentsAvailable && s.commentPolicyEnforced && !s.unknownBlocker && !s.malformed
    && (!s.checksDegraded || (s.checksFailed && ciFailuresFirst))
  }

  /** Which remediation is run, if any, in terms of the snapshot alone. */
  lemma RemediationExactly(s: Snapshot, ciFailuresFirst: bool)
    ensures var d := Classify(s, ciFailuresFirst);
      && (d.action == RunRemediation && d.remediationSkill == Some("fix-merge-conflicts") <==> Workable(s) && s.mergeConflict)
      && (d.action == RunRemediation && d.remediationSkill == Some("fix-comments") <==>
           Workable(s) && !s.mergeConflict && Trusted(s, ciFailuresFirst) && s.actionableComments)
      && (d.action == RunRemediation && d.remediationSkill == Some("fix-ci") <==>
           Workable(s) && !s.mergeConflict && Trusted(s, ciFailuresFirst) && !s.actionableComments && s.checksFailed)
      && (d.remediationSkill.Some? ==> d.action == RunRemediation)
  {
    SkillNamesDiffer();
  }

  lemma SkillNamesDiffer()
    ensures "fix-comments" != "fix-ci" && "fix-ci" != "fix-merge-conflicts" && "fix-comments" != "fix-merge-conflicts"
  {
    assert |"fix-comments"| == 12 && |"fix-ci"| == 6 && |"fix-merge-conflicts"| == 19;
  }

  /** No remediation is due: the evidence is trusted and shows nothing to fix. */
  predicate NothingToFix(s: Snapshot, ciFailuresFirst: bool) {
    Workable(s) && !s.mergeConflict && Trusted(s, ciFailuresFirst) && !s.actionableComments && !s.checksFailed
  }

  /** When the resolver publishes, merges, waits or hands over to a person; with the remediations these are all cases. */
  lemma OtherActionsExactly(s: Snapshot, ciFailuresFirst: bool)
    ensures var action := Classify(s, ciFailuresFirst).action;
      var settled := s.checksComplete && !s.mergeabilityUnknown && !s.automatedReviewPending;
      && (action == PublishTerminal <==> s.merged)
      && (action == AttemptMerge <==> NothingToFix(s, ciFailuresFirst) && settled && s.checksPassing)
      && (action == Wait <==> NothingToFix(s, ciFailuresFirst) && !settled)
      && (action == StopManualReview <==>
           && !s.merged
           && (!Workable(s) || (!s.mergeConflict && !Trusted(s, ciFailuresFirst))
               || (NothingToFix(s, ciFailuresFirst) && settled && !s.checksPassing)))
  {
  }

  /** A decision is terminal exactly for a pull request that is merged or closed. */
  lemma TerminalExactly(s: Snapshot, ciFailuresFirst: bool)
    ensures var d := Classify(s, ciFailuresFirst);
      && (d.terminalStatus == Some(TerminalAlreadyMerged) <==> s.merged)
      && (d.terminalStatus == Some(TerminalManualReview) <==> !s.merged && !s.open)
  {
  }

  /** The reason of a hand-over names the first obstacle, and a reason for waiting what is waited for. */
  lemma ReasonExactly(s: Snapshot, ciFailuresFirst: bool)
    ensures var reason := Classify(s, ciFailuresFirst).reasonCode;
      var readable := Workable(s) && !s.mergeConflict && s.commentsAvailable && s.commentPolicyEnforced;
      var degraded := s.checksDegraded && !(s.checksFailed && ciFailuresFirst);
      var clean := NothingToFix(s, ciFailuresFirst) && !s.automatedReviewPending;
      && (reason == PullRequestClosed <==> !s.merged && !s.open)
      && (reason == DraftPullRequest <==> !s.merged && s.open && s.draft)
      && (reason == PublishUnavailable <==> !s.merged && s.open && !s.draft && !s.publishAvailable)
      && (reason == CommentsUnavailable <==> Workable(s) && !s.mergeConflict && !s.commentsAvailable)
      && (reason == CommentPolicyNotEnforced <==> Workable(s) && !s.mergeConflict && s.commentsAvailable && !s.commentPolicyEnforced)
      && (reason == CiSignalDegraded <==> readable && degraded)
      && (reason == SnapshotMalformed <==> readable && !degraded && !s.unknownBlocker && s.malformed)
      && (reason == ReasonReviewGrace <==> NothingToFix(s, ciFailuresFirst) && s.automatedReviewPending)
      && (reason == ReasonCiRunning <==> clean && !s.checksComplete && (s.checksSignalAvailable || !s.mergeabilityUnknown))
      && (reason == ExternalStateTransient <==> clean && s.mergeabilityUnknown && (s.checksComplete || !s.checksSignalAvailable))
  {
  }
}
