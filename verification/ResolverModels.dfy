/** The records exchanged by the pull-request resolver stages. */
module ResolverModels {
  import opened Outcomes
  import opened PyText

  datatype Action = Wait | RunRemediation | AttemptMerge | PublishTerminal | StopManualReview

  /** The fields of the canonical snapshot that the classifier reads. */
  datatype Snapshot = Snapshot(
    merged: bool,
    open: bool,
    draft: bool,
    mergeConflict: bool,
    mergeabilityUnknown: bool,
    checksComplete: bool,
    checksPassing: bool,
    checksFailed: bool,
    checksDegraded: bool,
    checksSignalAvailable: bool,
    actionableComments: bool,
    commentsAvailable: bool,
    commentPolicyEnforced: bool,
    automatedReviewPending: bool,
    publishAvailable: bool,
    malformed: bool,
    unknownBlocker: bool
  )

  datatype Classification =
    | AlreadyMerged | ManualReview | MergeConflicts | ActionableComments | CiFailures
    | ReviewGrace | CiRunning | MergeabilityTransient | ReadyToMerge

  datatype Reason =
    | ReasonAlreadyMerged | PullRequestClosed | DraftPullRequest | PublishUnavailable | ReasonMergeConflicts
    | CommentsUnavailable | CommentPolicyNotEnforced | CiSignalDegraded | UnknownBlocker | SnapshotMalformed
    | ReasonActionableComments | ReasonCiFailures | ReasonReviewGrace | ReasonCiRunning | ExternalStateTransient
    | ReasonReadyToMerge | FinalizeBudgetExhausted | RepeatedBlockerWithoutProgress

  datatype TerminalStatus = TerminalAlreadyMerged | TerminalManualReview

  datatype Decision = Decision(
    classification: Classification,
    reasonCode: Reason,
    action: Action,
    remediationSkill: Option<string>,
    terminalStatus: Option<TerminalStatus>
  )

  datatype Policy = Policy(
    maxFinalizeAttempts: int := 60,
    maxRemediationsPerType: int := 2,
    maxIdenticalBlockersWithoutProgress: int := 2
  )

  datatype ResolverState = ResolverState(
    finalizeAttempts: int := 0,
    remediationCounts: seq<(string, int)> := [],
    identicalBlockerCount: int := 0,
    lastProgressSignature: Option<string> := None
  ) {
    function RemediationCount(skill: string): int {
      var count := Lookup(remediationCounts, skill);
      if count.Some? then count.value else 0
    }
  }

  /** `dict(pairs).get(key)`: the last pair of a key wins. */
  function Lookup(pairs: seq<(string, int)>, key: string): Option<int> {
    if pairs == [] then None else
      var last := pairs[|pairs| - 1];
      if last.0 == key then Some(last.1) else Lookup(pairs[..|pairs| - 1], key)
  }

  // ------------------------------------------------------- sorted pairs

  ghost predicate StrictlySorted(pairs: seq<(string, int)>) {
    forall i, j :: 0 <= i < j < |pairs| ==> Before(pairs[i].0, pairs[j].0)
  }

  /** Sets a key in sorted pairs. */
  function Upsert(pairs: seq<(string, int)>, key: string, value: int): seq<(string, int)> {
    if pairs == [] then [(key, value)]
    else if pairs[0].0 == key then [(key, value)] + pairs[1..]
    else if Before(key, pairs[0].0) then [(key, value)] + pairs
    else [pairs[0]] + Upsert(pairs[1..], key, value)
  }

  /** `sorted(dict(pairs).items())`. */
  function SortedItems(pairs: seq<(string, int)>): seq<(string, int)> {
    if pairs == [] then [] else
      var last := pairs[|pairs| - 1];
      Upsert(SortedItems(pairs[..|pairs| - 1]), last.0, last.1)
  }

  lemma {:induction false} LookupCons(pair: (string, int), pairs: seq<(string, int)>, key: string)
    ensures Lookup([pair] + pairs, key)
         == if Lookup(pairs, key).Some? then Lookup(pairs, key) else if pair.0 == key then Some(pair.1) else None
  {
    if pairs != [] {
      assert ([pair] + pairs)[..|pairs|] == [pair] + pairs[..|pairs| - 1];
      LookupCons(pair, pairs[..|pairs| - 1], key);
    } else {
      assert ([pair] + pairs)[..0] == [];
    }
  }

  ghost predicate AllBefore(key: string, pairs: seq<(string, int)>) {
    forall i :: 0 <= i < |pairs| ==> Before(key, pairs[i].0)
  }

  lemma {:induction false} AllBeforeAbsent(key: string, pairs: seq<(string, int)>)
    requires AllBefore(key, pairs)
    ensures Lookup(pairs, key) == None
  {
    if pairs != [] {
      BeforeIrreflexive(key);
      AllBeforeAbsent(key, pairs[..|pairs| - 1]);
    }
  }

  /** Sorted pairs start with the least key. */
  lemma SortedHead(pairs: seq<(string, int)>, key: string)
    requires StrictlySorted(pairs) && pairs != []
    ensures StrictlySorted(pairs[1..]) && AllBefore(pairs[0].0, pairs[1..])
    ensures Before(key, pairs[0].0) ==> AllBefore(key, pairs)
  {
    if Before(key, pairs[0].0) {
      forall i | 0 <= i < |pairs|
        ensures Before(key, pairs[i].0)
      {
        if i > 0 {
          BeforeTransitive(key, pairs[0].0, pairs[i].0);
        }
      }
    }
  }

  lemma ConsSorted(pair: (string, int), pairs: seq<(string, int)>)
    requires StrictlySorted(pairs) && AllBefore(pair.0, pairs)
    ensures StrictlySorted([pair] + pairs)
  {
  }

  lemma {:induction false} UpsertAllBefore(least: string, pairs: seq<(string, int)>, key: string, value: int)
    requires AllBefore(least, pairs) && Before(least, key)
    ensures AllBefore(least, Upsert(pairs, key, value))
  {
    if pairs != [] && pairs[0].0 != key && !Before(key, pairs[0].0) {
      UpsertAllBefore(least, pairs[1..], key, value);
    }
  }

  lemma {:induction false} UpsertSorted(pairs: seq<(string, int)>, key: string, value: int)
    requires StrictlySorted(pairs)
    ensures StrictlySorted(Upsert(pairs, key, value))
  {
    if pairs != [] {
      SortedHead(pairs, key);
      if pairs[0].0 == key {
        ConsSorted((key, value), pairs[1..]);
      } else if Before(key, pairs[0].0) {
        ConsSorted((key, value), pairs);
      } else {
        BeforeTotal(key, pairs[0].0);
        UpsertSorted(pairs[1..], key, value);
        UpsertAllBefore(pairs[0].0, pairs[1..], key, value);
        ConsSorted(pairs[0], Upsert(pairs[1..], key, value));
      }
    }
  }

  /** Setting a key changes the lookup of that key only. */
  lemma {:induction false} UpsertLookup(pairs: seq<(string, int)>, key: string, value: int, other: string)
    requires StrictlySorted(pairs)
    ensures Lookup(Upsert(pairs, key, value), other) == if other == key then Some(value) else Lookup(pairs, other)
  {
    if pairs == [] {
      LookupCons((key, value), [], other);
      assert [(key, value)] + [] == [(key, value)];
    } else {
      var rest := pairs[1..];
      assert pairs == [pairs[0]] + rest;
      SortedHead(pairs, key);
      LookupCons(pairs[0], rest, other);
      if pairs[0].0 == key {
        LookupCons((key, value), rest, other);
        AllBeforeAbsent(key, rest);
      } else if Before(key, pairs[0].0) {
        LookupCons((key, value), pairs, other);
        AllBeforeAbsent(key, pairs);
      } else {
        UpsertLookup(rest, key, value, other);
        LookupCons(pairs[0], Upsert(rest, key, value), other);
      }
    }
  }

  /** Sorting keeps every lookup and orders the keys strictly. */
  lemma {:induction false} SortedItemsCorrect(pairs: seq<(string, int)>, key: string)
    ensures StrictlySorted(SortedItems(pairs)) && Lookup(SortedItems(pairs), key) == Lookup(pairs, key)
  {
    if pairs != [] {
      var earlier, last := pairs[..|pairs| - 1], pairs[|pairs| - 1];
      SortedItemsCorrect(earlier, key);
      UpsertSorted(SortedItems(earlier), last.0, last.1);
      UpsertLookup(SortedItems(earlier), last.0, last.1, key);
    }
  }
}
