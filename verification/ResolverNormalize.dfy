/**
  Normalisation of provider-shaped snapshots, and the exact conditions under which a raw
  snapshot ends in a merge attempt once both stages are composed.
 */
module ResolverNormalize {
  import opened Outcomes
  import opened PyText
  import opened ResolverModels
  import opened ResolverClassify
  import opened ResolverTransition

  /** A decoded JSON value. */
  datatype Value =
    | Null
    | Bool(b: bool)
    | Str(s: string)
    | List(items: seq<Value>)
    | Dict(fields: map<string, Value>)
    | Number(nonZero: bool)

  /** The case mappings and the rendering of non-strings, which the results do not depend on. */
  datatype TextOps = TextOps(lower: string -> string, upper: string -> string, show: Value -> string)

  predicate IsTruthy(v: Value) {
    match v
    case Null => false
    case Bool(b) => b
    case Str(s) => s != ""
    case List(items) => items != []
    case Dict(fields) => fields != map[]
    case Number(nonZero) => nonZero
  }

  function Get(fields: map<string, Value>, key: string): Value {
    if key in fields then fields[key] else Null
  }

  /** `str(value or "").strip()`. */
  function TextOf(ops: TextOps, v: Value): string {
    if !IsTruthy(v) then "" else Strip(if v.Str? then v.s else ops.show(v))
  }

  predicate BoolOf(v: Value) {
    v.Bool? && v.b
  }

  function DictOf(v: Value): map<string, Value> {
    if v.Dict? then v.fields else map[]
  }

  predicate OccursAt(text: string, part: string, i: int) {
    0 <= i <= |text| - |part| && text[i..i + |part|] == part
  }

  predicate Contains(text: string, part: string) {
    exists i :: 0 <= i <= |text| && OccursAt(text, part, i)
  }

  /** The falsy values of JSON; a value that is no mapping counts as an empty one. */
  lemma FalsyExactly(v: Value, fields: map<string, Value>)
    ensures !IsTruthy(v) <==> v in [Null, Bool(false), Str(""), List([]), Dict(map[]), Number(false)]
    ensures DictOf(v) == fields <==> v == Dict(fields) || (!v.Dict? && fields == map[])
  {
  }

  /** The text of a string is the string stripped; of anything else it is empty, or its rendering stripped. */
  lemma TextExactly(ops: TextOps, v: Value)
    ensures v.Str? ==> TextOf(ops, v) == Strip(v.s)
    ensures !v.Str? && IsTruthy(v) ==> TextOf(ops, v) == Strip(ops.show(v))
    ensures !IsTruthy(v) ==> TextOf(ops, v) == ""
  {
    StripBlank("");
    hide Strip;
  }

  /** A part is contained exactly if the text can be written around it. */
  lemma ContainsExactly(text: string, part: string)
    ensures Contains(text, part) <==> exists before: string, after: string :: text == before + part + after
  {
    if Contains(text, part) {
      var i :| 0 <= i <= |text| && OccursAt(text, part, i);
      assert text == text[..i] + part + text[i + |part|..];
    }
    if before: string, after: string :| text == before + part + after {
      assert OccursAt(text, part, |before|);
    }
  }

  /** The mapping-shaped members of the blockers; None models the TypeError of a truthy value that cannot be iterated. */
  function Blockers(v: Value): Option<seq<map<string, Value>>> {
    match v
    case List(items) => Some(Mappings(items))
    case Bool(b) => if b then None else Some([])
    case Number(nonZero) => if nonZero then None else Some([])
    case _ => Some([])
  }

  function Mappings(items: seq<Value>): seq<map<string, Value>> {
    if items == [] then []
    else Mappings(items[..|items| - 1]) + (if items[|items| - 1].Dict? then [items[|items| - 1].fields] else [])
  }

  lemma {:induction false} MappingsInOrder(a: seq<Value>, b: seq<Value>)
    ensures Mappings(a + b) == Mappings(a) + Mappings(b)
  {
    if b == [] {
      assert a + b == a;
    } else {
      var n := |b| - 1;
      assert (a + b)[..|a + b| - 1] == a + b[..n];
      MappingsInOrder(a, b[..n]);
    }
  }

  /** A list keeps its mappings, in order (`MappingsInOrder`); any other value has none, or cannot be iterated at all. */
  lemma BlockersExactly(v: Value, items: seq<Value>, item: Value)
    ensures Blockers(v).None? <==> v == Bool(true) || v == Number(true)
    ensures Blockers(v).Some? && !v.List? ==> Blockers(v).value == []
    ensures Blockers(List(items + [item])).Some? && Blockers(List(items)).Some?
    ensures Blockers(List(items + [item])).value == Blockers(List(items)).value + if item.Dict? then [item.fields] else []
  {
    assert (items + [item])[..|items + [item]| - 1] == items;
  }

  function KindOf(ops: TextOps, blocker: map<string, Value>): string {
    ops.lower(TextOf(ops, Get(blocker, "kind")))
  }

  predicate HasKind(ops: TextOps, blockers: seq<map<string, Value>>, kind: string) {
    exists i :: 0 <= i < |blockers| && KindOf(ops, blockers[i]) == kind
  }

  predicate HasKindIn(ops: TextOps, blockers: seq<map<string, Value>>, kinds: set<string>) {
    exists i :: 0 <= i < |blockers| && KindOf(ops, blockers[i]) in kinds
  }

  /** The summary of a blocker asks for changes. */
  predicate AsksForChanges(ops: TextOps, blocker: map<string, Value>) {
    var summary := ops.lower(TextOf(ops, Get(blocker, "summary")));
    Contains(summary, "requested changes") || Contains(summary, "changes requested")
  }

  /** A blocker's kind is the lower case of its `kind`, and it asks for changes in the words of its `summary`. */
  lemma BlockerReads(ops: TextOps, blocker: map<string, Value>, kind: string, summary: string)
    requires Get(blocker, "kind") == Str(kind) && Get(blocker, "summary") == Str(summary)
    ensures KindOf(ops, blocker) == ops.lower(Strip(kind))
    ensures AsksForChanges(ops, blocker) <==>
      exists before: string, after: string ::
        || ops.lower(Strip(summary)) == before + "requested changes" + after
        || ops.lower(Strip(summary)) == before + "changes requested" + after
  {
    TextExactly(ops, Str(kind));
    TextExactly(ops, Str(summary));
    hide Strip, TextOf, Contains;
    var text := ops.lower(Strip(summary));
    ContainsExactly(text, "requested changes");
    ContainsExactly(text, "changes requested");
  }

  predicate NonRetryable(ops: TextOps, blocker: map<string, Value>) {
    KindOf(ops, blocker) == "external_state_unavailable" && Get(blocker, "retryable") == Bool(false)
  }

  const CONFLICT_KINDS := {"merge_conflict", "merge_conflicts"}
  const UNKNOWN_MERGEABILITY_KINDS := {"mergeability_unknown", "mergeability_transient"}
  const UNPUBLISHABLE_KINDS := {"authentication_unavailable", "publish_unavailable"}
  const DEGRADED_KINDS := {
    "checks_unavailable", "readiness_evidence_unavailable", "comments_unavailable",
    "authentication_unavailable", "publish_unavailable"
  }
  const KNOWN_KINDS := {
    "merge_conflict", "merge_conflicts", "checks_failed", "checks_running", "automated_review_pending",
    "actionable_comments", "mergeability_unknown", "mergeability_transient", "external_state_unavailable",
    "checks_unavailable", "readiness_evidence_unavailable", "comments_unavailable",
    "authentication_unavailable", "publish_unavailable", "draft"
  }

  function NormalizeTemporal(ops: TextOps, raw: map<string, Value>): Option<Snapshot> {
    match Blockers(Get(raw, "blockers"))
    case None => None
    case Some(blockers) =>
      var nonRetryable := exists i :: 0 <= i < |blockers| && NonRetryable(ops, blockers[i]);
      var complete, passing := Get(raw, "checksComplete"), Get(raw, "checksPassing");
      var ready := Get(raw, "ready") == Bool(true);
      var failedKind := HasKind(ops, blockers, "checks_failed");
      Some(Snapshot(
        merged := Get(raw, "pullRequestMerged") == Bool(true),
        open := Get(raw, "pullRequestOpen") != Bool(false),
        draft := Get(raw, "draft") == Bool(true) || HasKind(ops, blockers, "draft"),
        mergeConflict := HasKindIn(ops, blockers, CONFLICT_KINDS),
        mergeabilityUnknown :=
          HasKindIn(ops, blockers, UNKNOWN_MERGEABILITY_KINDS)
          || (HasKind(ops, blockers, "external_state_unavailable") && !nonRetryable),
        checksComplete := ready || failedKind || BoolOf(complete),
        checksPassing := ready || (!failedKind && BoolOf(passing)),
        checksFailed := failedKind || (!ready && BoolOf(complete) && !BoolOf(passing)),
        checksDegraded := HasKindIn(ops, blockers, DEGRADED_KINDS),
        checksSignalAvailable := complete.Bool?,
        actionableComments :=
          HasKind(ops, blockers, "actionable_comments")
          || (exists i :: 0 <= i < |blockers| && AsksForChanges(ops, blockers[i])),
        commentsAvailable := !HasKind(ops, blockers, "comments_unavailable"),
        commentPolicyEnforced := true,
        automatedReviewPending := HasKind(ops, blockers, "automated_review_pending"),
        publishAvailable := !HasKindIn(ops, blockers, UNPUBLISHABLE_KINDS),
        malformed := !(
          Get(raw, "pullRequestMerged") == Bool(true) || Get(raw, "pullRequestOpen") == Bool(false)
          || blockers != [] || complete.Bool? || ready),
        unknownBlocker := (exists i :: 0 <= i < |blockers| && KindOf(ops, blockers[i]) !in KNOWN_KINDS) || nonRetryable
      ))
  }

  /** The raw condition for a merge attempt on a Temporal-shaped snapshot. */
  ghost predicate TemporalReady(ops: TextOps, raw: map<string, Value>) {
    && Get(raw, "pullRequestMerged") != Bool(true)
    && Get(raw, "pullRequestOpen") != Bool(false)
    && Get(raw, "draft") != Bool(true)
    && (Get(raw, "ready") == Bool(true) || (Get(raw, "checksComplete") == Bool(true) && Get(raw, "checksPassing") == Bool(true)))
    && match Blockers(Get(raw, "blockers"))
       case None => false
       case Some(blockers) =>
         forall i :: 0 <= i < |blockers| ==> KindOf(ops, blockers[i]) == "checks_running" && !AsksForChanges(ops, blockers[i])
  }

  /** A kind that passes every test of the classifier's stop and remediation branches is `checks_running`. */
  lemma OnlyRunningPasses(kind: string)
    requires kind in KNOWN_KINDS && kind !in CONFLICT_KINDS && kind !in DEGRADED_KINDS && kind !in UNKNOWN_MERGEABILITY_KINDS
    requires kind !in {"draft", "checks_failed", "actionable_comments", "automated_review_pending", "external_state_unavailable"}
    ensures kind == "checks_running"
  {
  }

  lemma RunningIsHarmless()
    ensures "checks_running" in KNOWN_KINDS
    ensures "checks_running" !in CONFLICT_KINDS && "checks_running" !in DEGRADED_KINDS
    ensures "checks_running" !in UNKNOWN_MERGEABILITY_KINDS && "checks_running" !in UNPUBLISHABLE_KINDS
    ensures "checks_running" !in {"draft", "checks_failed", "actionable_comments", "automated_review_pending", "external_state_unavailable", "comments_unavailable"}
  {
    var running := "checks_running";
    assert |running| == 14 && running[7] == 'r' && running[0] == 'c';
  }

  /** If no stop, remediation or wait branch is taken, every blocker only says that checks are running. */
  lemma MergeNeedsRunningOnly(ops: TextOps, raw: map<string, Value>, ciFailuresFirst: bool)
    requires NormalizeTemporal(ops, raw).Some?
    requires Classify(NormalizeTemporal(ops, raw).value, ciFailuresFirst).action.AttemptMerge?
    ensures TemporalReady(ops, raw)
  {
    var blockers := Blockers(Get(raw, "blockers")).value;
    forall i | 0 <= i < |blockers|
      ensures KindOf(ops, blockers[i]) == "checks_running" && !AsksForChanges(ops, blockers[i])
    {
      var kind := KindOf(ops, blockers[i]);
      OnlyRunningPasses(kind);
    }
  }

  lemma RunningOnlyMerges(ops: TextOps, raw: map<string, Value>, ciFailuresFirst: bool)
    requires TemporalReady(ops, raw)
    ensures NormalizeTemporal(ops, raw).Some?
    ensures Classify(NormalizeTemporal(ops, raw).value, ciFailuresFirst).action.AttemptMerge?
  {
    RunningIsHarmless();
  }

  /** A Temporal snapshot ends in a merge attempt exactly when the raw condition holds, whichever way known CI failures rank. */
  lemma TemporalMergeExact(ops: TextOps, raw: map<string, Value>, ciFailuresFirst: bool)
    ensures NormalizeTemporal(ops, raw).Some? && Classify(NormalizeTemporal(ops, raw).value, ciFailuresFirst).action.AttemptMerge?
      <==> TemporalReady(ops, raw)
  {
    if TemporalReady(ops, raw) {
      RunningOnlyMerges(ops, raw, ciFailuresFirst);
    } else if NormalizeTemporal(ops, raw).Some? && Classify(NormalizeTemporal(ops, raw).value, ciFailuresFirst).action.AttemptMerge? {
      MergeNeedsRunningOnly(ops, raw, ciFailuresFirst);
    }
  }

  /** The raw facts that let a Temporal-shaped snapshot be worked on at all. */
  ghost predicate TemporalWorkable(ops: TextOps, raw: map<string, Value>, blockers: seq<map<string, Value>>) {
    && Get(raw, "pullRequestMerged") != Bool(true)
    && Get(raw, "pullRequestOpen") != Bool(false)
    && Get(raw, "draft") != Bool(true) && !HasKind(ops, blockers, "draft")
    && !HasKind(ops, blockers, "authentication_unavailable") && !HasKind(ops, blockers, "publish_unavailable")
  }

  ghost predicate TemporalConflict(ops: TextOps, blockers: seq<map<string, Value>>) {
    HasKind(ops, blockers, "merge_conflict") || HasKind(ops, blockers, "merge_conflicts")
  }

  /** Someone asked for changes, by kind or in the words of a summary. */
  ghost predicate TemporalComments(ops: TextOps, blockers: seq<map<string, Value>>) {
    HasKind(ops, blockers, "actionable_comments") || exists i :: 0 <= i < |blockers| && AsksForChanges(ops, blockers[i])
  }

  /** The checks are reported, or known, to have failed. */
  ghost predicate TemporalFailure(ops: TextOps, raw: map<string, Value>, blockers: seq<map<string, Value>>) {
    || HasKind(ops, blockers, "checks_failed")
    || (Get(raw, "ready") != Bool(true) && Get(raw, "checksComplete") == Bool(true) && Get(raw, "checksPassing") != Bool(true))
  }

  lemma AnyOfKinds(ops: TextOps, blockers: seq<map<string, Value>>, a: string, b: string)
    ensures HasKindIn(ops, blockers, {a, b}) <==> HasKind(ops, blockers, a) || HasKind(ops, blockers, b)
  {
  }

  /** Which Temporal-shaped snapshots have their conflicts fixed. */
  lemma TemporalConflictExact(ops: TextOps, raw: map<string, Value>, ciFailuresFirst: bool)
    requires Blockers(Get(raw, "blockers")).Some?
    ensures var blockers := Blockers(Get(raw, "blockers")).value;
      NormalizeTemporal(ops, raw).Some? &&
      (Classify(NormalizeTemporal(ops, raw).value, ciFailuresFirst).remediationSkill == Some("fix-merge-conflicts")
       <==> TemporalWorkable(ops, raw, blockers) && TemporalConflict(ops, blockers))
  {
    hide Classify, TemporalWorkable, TemporalConflict, Workable, Trusted;
    RemediationExactly(NormalizeTemporal(ops, raw).value, ciFailuresFirst);
    WorkableExactly(ops, raw);
  }

  /** What a snapshot says of comments and failures, read off the raw facts. */
  lemma TemporalSignals(ops: TextOps, raw: map<string, Value>)
    requires Blockers(Get(raw, "blockers")).Some?
    ensures var blockers := Blockers(Get(raw, "blockers")).value;
      var s := NormalizeTemporal(ops, raw).value;
      && (s.actionableComments <==> TemporalComments(ops, blockers))
      && (s.checksFailed <==> TemporalFailure(ops, raw, blockers))
      && (s.checksPassing <==>
           Get(raw, "ready") == Bool(true) || (!HasKind(ops, blockers, "checks_failed") && Get(raw, "checksPassing") == Bool(true)))
      && (s.checksComplete <==>
           Get(raw, "ready") == Bool(true) || HasKind(ops, blockers, "checks_failed") || Get(raw, "checksComplete") == Bool(true))
      && (s.automatedReviewPending <==> HasKind(ops, blockers, "automated_review_pending"))
      && (s.commentsAvailable <==> !HasKind(ops, blockers, "comments_unavailable"))
      && (s.mergeabilityUnknown <==>
           || HasKind(ops, blockers, "mergeability_unknown") || HasKind(ops, blockers, "mergeability_transient")
           || (HasKind(ops, blockers, "external_state_unavailable")
               && forall i :: 0 <= i < |blockers| && KindOf(ops, blockers[i]) == "external_state_unavailable" ==> Get(blockers[i], "retryable") != Bool(false)))
      && (s.malformed <==>
           && Get(raw, "pullRequestMerged") != Bool(true) && Get(raw, "pullRequestOpen") != Bool(false) && blockers == []
           && !Get(raw, "checksComplete").Bool? && Get(raw, "ready") != Bool(true))
  {
    hide KindOf, AsksForChanges;
    var blockers := Blockers(Get(raw, "blockers")).value;
    AnyOfKinds(ops, blockers, "mergeability_unknown", "mergeability_transient");
  }

  /** A blocker of a known kind that leaves the comments available and may go away. */
  ghost predicate Understood(ops: TextOps, blocker: map<string, Value>) {
    && KindOf(ops, blocker) in {
         "merge_conflict", "merge_conflicts", "checks_failed", "checks_running", "automated_review_pending",
         "actionable_comments", "mergeability_unknown", "mergeability_transient", "external_state_unavailable",
         "checks_unavailable", "readiness_evidence_unavailable", "authentication_unavailable", "publish_unavailable", "draft" }
    && (KindOf(ops, blocker) == "external_state_unavailable" ==> Get(blocker, "retryable") != Bool(false))
  }

  /** The evidence of a Temporal-shaped snapshot about comments and checks can be trusted. */
  ghost predicate TemporalTrusted(ops: TextOps, raw: map<string, Value>, blockers: seq<map<string, Value>>, ciFailuresFirst: bool) {
    && (forall i :: 0 <= i < |blockers| ==> Understood(ops, blockers[i]))
    && (blockers != [] || Get(raw, "checksComplete").Bool? || Get(raw, "ready") == Bool(true))
    && (HasKind(ops, blockers, "checks_unavailable") || HasKind(ops, blockers, "readiness_evidence_unavailable") ==>
         TemporalFailure(ops, raw, blockers) && ciFailuresFirst)
  }

  lemma AnyOfFive(ops: TextOps, blockers: seq<map<string, Value>>, a: string, b: string, c: string, d: string, e: string)
    ensures HasKindIn(ops, blockers, {a, b, c, d, e}) <==>
      || HasKind(ops, blockers, a) || HasKind(ops, blockers, b) || HasKind(ops, blockers, c)
      || HasKind(ops, blockers, d) || HasKind(ops, blockers, e)
  {
    hide KindOf;
  }

  /** Every blocker is known and may go away. */
  lemma NoUnknownBlocker(ops: TextOps, raw: map<string, Value>)
    requires Blockers(Get(raw, "blockers")).Some?
    ensures var blockers := Blockers(Get(raw, "blockers")).value;
      !NormalizeTemporal(ops, raw).value.unknownBlocker <==>
        forall i :: 0 <= i < |blockers| ==> KindOf(ops, blockers[i]) == "comments_unavailable" || Understood(ops, blockers[i])
  {
    hide KindOf, AsksForChanges, HasKind, HasKindIn;
  }

  lemma DegradedExactly(ops: TextOps, raw: map<string, Value>)
    requires Blockers(Get(raw, "blockers")).Some?
    ensures var blockers := Blockers(Get(raw, "blockers")).value;
      && NormalizeTemporal(ops, raw).value.commentPolicyEnforced
      && (NormalizeTemporal(ops, raw).value.checksDegraded <==>
           || HasKind(ops, blockers, "checks_unavailable") || HasKind(ops, blockers, "readiness_evidence_unavailable")
           || HasKind(ops, blockers, "comments_unavailable")
           || HasKind(ops, blockers, "authentication_unavailable") || HasKind(ops, blockers, "publish_unavailable"))
  {
    AnyOfFive(ops, Blockers(Get(raw, "blockers")).value, "checks_unavailable", "readiness_evidence_unavailable", "comments_unavailable",
      "authentication_unavailable", "publish_unavailable");
    hide KindOf, AsksForChanges, NonRetryable, HasKind, HasKindIn;
  }

  lemma UnderstoodIsNotMissingComments(ops: TextOps, blockers: seq<map<string, Value>>)
    ensures (forall i :: 0 <= i < |blockers| ==> Understood(ops, blockers[i])) <==>
      && !HasKind(ops, blockers, "comments_unavailable")
      && forall i :: 0 <= i < |blockers| ==> KindOf(ops, blockers[i]) == "comments_unavailable" || Understood(ops, blockers[i])
  {
    hide KindOf;
  }

  lemma TrustedExactly(ops: TextOps, raw: map<string, Value>, ciFailuresFirst: bool)
    requires Blockers(Get(raw, "blockers")).Some?
    requires TemporalWorkable(ops, raw, Blockers(Get(raw, "blockers")).value)
    ensures Trusted(NormalizeTemporal(ops, raw).value, ciFailuresFirst) <==>
      TemporalTrusted(ops, raw, Blockers(Get(raw, "blockers")).value, ciFailuresFirst)
  {
    var blockers := Blockers(Get(raw, "blockers")).value;
    TemporalSignals(ops, raw);
    NoUnknownBlocker(ops, raw);
    DegradedExactly(ops, raw);
    UnderstoodIsNotMissingComments(ops, blockers);
    hide KindOf, AsksForChanges, HasKind, HasKindIn, NormalizeTemporal, Understood, TemporalFailure, TemporalComments;
  }

  /** Which Temporal-shaped snapshots have their comments or their checks fixed, in terms of the raw facts. */
  lemma TemporalFixesExactly(ops: TextOps, raw: map<string, Value>, ciFailuresFirst: bool)
    requires Blockers(Get(raw, "blockers")).Some?
    ensures var blockers := Blockers(Get(raw, "blockers")).value;
      var skill := Classify(NormalizeTemporal(ops, raw).value, ciFailuresFirst).remediationSkill;
      var fixable := TemporalWorkable(ops, raw, blockers) && !TemporalConflict(ops, blockers) && TemporalTrusted(ops, raw, blockers, ciFailuresFirst);
      && (skill == Some("fix-comments") <==> fixable && TemporalComments(ops, blockers))
      && (skill == Some("fix-ci") <==> fixable && !TemporalComments(ops, blockers) && TemporalFailure(ops, raw, blockers))
  {
    var blockers := Blockers(Get(raw, "blockers")).value;
    var s := NormalizeTemporal(ops, raw).value;
    RemediationExactly(s, ciFailuresFirst);
    WorkableExactly(ops, raw);
    TemporalSignals(ops, raw);
    if TemporalWorkable(ops, raw, blockers) {
      TrustedExactly(ops, raw, ciFailuresFirst);
    }
    hide Classify, NormalizeTemporal, Workable, Trusted, TemporalWorkable, TemporalTrusted, TemporalComments, TemporalFailure, TemporalConflict;
  }

  lemma WorkableExactly(ops: TextOps, raw: map<string, Value>)
    requires Blockers(Get(raw, "blockers")).Some?
    ensures var blockers := Blockers(Get(raw, "blockers")).value;
      && (Workable(NormalizeTemporal(ops, raw).value) <==> TemporalWorkable(ops, raw, blockers))
      && (NormalizeTemporal(ops, raw).value.mergeConflict <==> TemporalConflict(ops, blockers))
  {
    var blockers := Blockers(Get(raw, "blockers")).value;
    AnyOfKinds(ops, blockers, "merge_conflict", "merge_conflicts");
    AnyOfKinds(ops, blockers, "authentication_unavailable", "publish_unavailable");
    hide KindOf, AsksForChanges, NonRetryable, HasKind, HasKindIn;
  }

  // ------------------------------------------------------- portable shape

  const UNSETTLED_MERGE_STATES := {"UNKNOWN", "UNSTABLE", "BLOCKED"}

  function NormalizePortable(ops: TextOps, raw: map<string, Value>): Snapshot {
    var pr, ci := DictOf(Get(raw, "pr")), DictOf(Get(raw, "ci"));
    var fetch, comments := DictOf(Get(raw, "commentsFetch")), DictOf(Get(raw, "commentsSummary"));
    var state := ops.upper(TextOf(ops, Get(pr, "state")));
    var mergeState := ops.upper(TextOf(ops, Get(pr, "mergeStateStatus")));
    var mergeable := Get(pr, "mergeable");
    var mergeableText := ops.upper(TextOf(ops, mergeable));
    var quality := ops.lower(TextOf(ops, Get(ci, "signalQuality")));
    var hasFailures, running := BoolOf(Get(ci, "hasFailures")), BoolOf(Get(ci, "isRunning"));
    Snapshot(
      merged := state == "MERGED",
      open := state !in {"CLOSED", "MERGED"},
      draft := Get(pr, "isDraft") == Bool(true),
      mergeConflict := mergeState in {"BEHIND", "DIRTY"} || mergeable == Bool(false) || mergeableText in {"CONFLICTING", "DIRTY", "CONFLICT"},
      mergeabilityUnknown := mergeState in UNSETTLED_MERGE_STATES || mergeableText in {"UNKNOWN", "UNSTABLE"},
      checksComplete := !running,
      checksPassing := !hasFailures && !running && quality in {"", "ok"},
      checksFailed := BoolOf(Get(ci, "hasAuthoritativeFailures")) || (hasFailures && quality in {"", "ok"}),
      checksDegraded := quality !in {"", "ok"},
      checksSignalAvailable := ci != map[],
      actionableComments := BoolOf(Get(comments, "hasActionableComments")),
      commentsAvailable := Get(fetch, "succeeded") == Bool(true),
      commentPolicyEnforced := Get(comments, "includeBotReviewComments") == Bool(true),
      automatedReviewPending := Get(DictOf(Get(comments, "codexReviewGrace")), "active") == Bool(true),
      publishAvailable := Get(raw, "publishAvailable") != Bool(false),
      malformed := !(pr != map[] && ci != map[] && fetch != map[]),
      unknownBlocker := false
    )
  }

  /** The raw condition for a merge attempt on a portable snapshot. */
  ghost predicate PortableReady(ops: TextOps, raw: map<string, Value>) {
    var pr, ci := DictOf(Get(raw, "pr")), DictOf(Get(raw, "ci"));
    var fetch, comments := DictOf(Get(raw, "commentsFetch")), DictOf(Get(raw, "commentsSummary"));
    && pr != map[] && ci != map[]
    && ops.upper(TextOf(ops, Get(pr, "state"))) !in {"CLOSED", "MERGED"}
    && Get(pr, "isDraft") != Bool(true) && Get(pr, "mergeable") != Bool(false)
    && ops.upper(TextOf(ops, Get(pr, "mergeStateStatus"))) !in {"BEHIND", "DIRTY", "UNKNOWN", "UNSTABLE", "BLOCKED"}
    && ops.upper(TextOf(ops, Get(pr, "mergeable"))) !in {"CONFLICTING", "DIRTY", "CONFLICT", "UNKNOWN", "UNSTABLE"}
    && ops.lower(TextOf(ops, Get(ci, "signalQuality"))) in {"", "ok"}
    && Get(ci, "isRunning") != Bool(true) && Get(ci, "hasFailures") != Bool(true) && Get(ci, "hasAuthoritativeFailures") != Bool(true)
    && Get(fetch, "succeeded") == Bool(true)
    && Get(comments, "includeBotReviewComments") == Bool(true) && Get(comments, "hasActionableComments") != Bool(true)
    && Get(DictOf(Get(comments, "codexReviewGrace")), "active") != Bool(true)
    && Get(raw, "publishAvailable") != Bool(false)
  }

  lemma PortableMergeExact(ops: TextOps, raw: map<string, Value>, ciFailuresFirst: bool)
    ensures Classify(NormalizePortable(ops, raw), ciFailuresFirst).action.AttemptMerge? <==> PortableReady(ops, raw)
  {
    var fetch := DictOf(Get(raw, "commentsFetch"));
    assert Get(fetch, "succeeded") == Bool(true) ==> fetch != map[];
  }

  /** The raw facts that let a portable snapshot be worked on at all. */
  ghost predicate PortableWorkable(ops: TextOps, raw: map<string, Value>) {
    var pr := DictOf(Get(raw, "pr"));
    && ops.upper(TextOf(ops, Get(pr, "state"))) != "MERGED" && ops.upper(TextOf(ops, Get(pr, "state"))) != "CLOSED"
    && Get(pr, "isDraft") != Bool(true) && Get(raw, "publishAvailable") != Bool(false)
  }

  /** The branch conflicts with its base or is behind it, by any of the three reports. */
  ghost predicate PortableConflict(ops: TextOps, raw: map<string, Value>) {
    var pr := DictOf(Get(raw, "pr"));
    var mergeState, mergeable := ops.upper(TextOf(ops, Get(pr, "mergeStateStatus"))), ops.upper(TextOf(ops, Get(pr, "mergeable")));
    || mergeState == "BEHIND" || mergeState == "DIRTY"
    || Get(pr, "mergeable") == Bool(false)
    || mergeable == "CONFLICTING" || mergeable == "DIRTY" || mergeable == "CONFLICT"
  }

  /** The quality of the CI signal is good, or nothing is said of it. */
  ghost predicate GoodSignal(ops: TextOps, raw: map<string, Value>) {
    var quality := ops.lower(TextOf(ops, Get(DictOf(Get(raw, "ci")), "signalQuality")));
    quality == "" || quality == "ok"
  }

  /** The checks failed by an authoritative signal, or by a good one. */
  ghost predicate PortableFailure(ops: TextOps, raw: map<string, Value>) {
    var ci := DictOf(Get(raw, "ci"));
    Get(ci, "hasAuthoritativeFailures") == Bool(true) || (Get(ci, "hasFailures") == Bool(true) && GoodSignal(ops, raw))
  }

  /** All shapes are there, the comments were fetched under the policy, and the CI signal is good or failed first. */
  ghost predicate PortableTrusted(ops: TextOps, raw: map<string, Value>, ciFailuresFirst: bool) {
    && DictOf(Get(raw, "pr")) != map[] && DictOf(Get(raw, "ci")) != map[]
    && Get(DictOf(Get(raw, "commentsFetch")), "succeeded") == Bool(true)
    && Get(DictOf(Get(raw, "commentsSummary")), "includeBotReviewComments") == Bool(true)
    && (GoodSignal(ops, raw) || (PortableFailure(ops, raw) && ciFailuresFirst))
  }

  ghost predicate PortableComments(raw: map<string, Value>) {
    Get(DictOf(Get(raw, "commentsSummary")), "hasActionableComments") == Bool(true)
  }

  lemma PortableSignals(ops: TextOps, raw: map<string, Value>, ciFailuresFirst: bool)
    ensures var s := NormalizePortable(ops, raw);
      && (s.merged <==> ops.upper(TextOf(ops, Get(DictOf(Get(raw, "pr")), "state"))) == "MERGED")
      && (s.merged ==> !s.open)
      && (Workable(s) <==> PortableWorkable(ops, raw))
      && (s.mergeConflict <==> PortableConflict(ops, raw))
      && (Trusted(s, ciFailuresFirst) <==> PortableTrusted(ops, raw, ciFailuresFirst))
      && (s.actionableComments <==> PortableComments(raw))
      && (s.checksFailed <==> PortableFailure(ops, raw))
      && (s.checksSignalAvailable <==> DictOf(Get(raw, "ci")) != map[])
  {
    hide TextOf;
    var fetch := DictOf(Get(raw, "commentsFetch"));
    assert Get(fetch, "succeeded") == Bool(true) ==> fetch != map[];
  }

  /** Which remediation a portable snapshot leads to, if any, in terms of the raw facts. */
  lemma PortableFixesExactly(ops: TextOps, raw: map<string, Value>, ciFailuresFirst: bool)
    ensures var skill := Classify(NormalizePortable(ops, raw), ciFailuresFirst).remediationSkill;
      var fixable := PortableWorkable(ops, raw) && !PortableConflict(ops, raw) && PortableTrusted(ops, raw, ciFailuresFirst);
      && (skill == Some("fix-merge-conflicts") <==> PortableWorkable(ops, raw) && PortableConflict(ops, raw))
      && (skill == Some("fix-comments") <==> fixable && PortableComments(raw))
      && (skill == Some("fix-ci") <==> fixable && !PortableComments(raw) && PortableFailure(ops, raw))
  {
    PortableSignals(ops, raw, ciFailuresFirst);
    RemediationExactly(NormalizePortable(ops, raw), ciFailuresFirst);
    hide Classify, NormalizePortable, Workable, Trusted, PortableWorkable, PortableConflict, PortableTrusted, PortableFailure, PortableComments;
  }

  /** The reducer attempts a merge exactly when the normalised snapshot asks for one and finalize attempts remain. */
  lemma ReducerMergesExactly(ops: TextOps, raw: map<string, Value>, previous: ResolverState, policy: Policy, signature: Option<string>, ciFailuresFirst: bool)
    requires NormalizeTemporal(ops, raw).Some?
    ensures Reduce(previous, policy, Input(NormalizeTemporal(ops, raw).value, signature, ciFailuresFirst)).action.AttemptMerge?
      <==> TemporalReady(ops, raw) && previous.finalizeAttempts < policy.maxFinalizeAttempts
  {
    TemporalMergeExact(ops, raw, ciFailuresFirst);
  }
}
