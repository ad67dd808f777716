/**
  What the steps on the tables mean, said of the rows themselves: when `begin` admits, what it
  stores and for how long, what the other calls write, and what a caller is told.
 */
module RetrievalBegin {
  import opened Outcomes
  import opened PyText
  import opened RetrievalTables
  import opened RetrievalRuns
  import opened RetrievalRegistry

  // -------------------------------------------------------- when it admits

  /** A clock reading lies in the window that starts at a whole minute at or before it. */
  lemma WindowMeaning(now: real)
    ensures WindowStart(now) % 60 == 0 && WindowStart(now) as real <= now < WindowStart(now) as real + 60.0
  {
    var minutes := now / 60.0;
    assert minutes.Floor as real <= minutes < minutes.Floor as real + 1.0;
    assert now == minutes * 60.0;
  }

  /** The admissions that a window row records, zero if there is no row. */
  lemma WindowRow(windows: map<(string, int), int>, id: string, start: int)
    ensures WindowCount(windows, id, start) == if (id, start) in windows then windows[(id, start)] else 0
  {
  }

  /**
    The outcome of `begin`, in the order of its checks: a completed call is replayed, one whose
    lease has not ended is a duplicate, and otherwise it is admitted unless the minute, the
    total or the unexpired reservations of the capability exhaust a budget.
   */
  lemma BeginOutcomeExactly(t: Tables, id: string, call: string, now: real)
    requires id in t.capabilities
    ensures var row := t.capabilities[id];
      var requests := t.requests;
      var live := set k | k in requests && k.0 == id && requests[k].InProgress? && now < requests[k].leaseExpiresAt;
      RowOutcome(t, id, call, now) ==
        if (id, call) in requests && requests[(id, call)].Completed? then Replayed(requests[(id, call)].response)
        else if (id, call) in live then Denied(DuplicateInFlight)
        else if WindowCount(t.windows, id, WindowStart(now)) >= row.budget.maxRequestsPerMinute then Denied(RateExceeded)
        else if row.queryCount >= row.budget.maxQueries then Denied(BudgetExhausted)
        else if |live| >= row.budget.maxConcurrency then Denied(ConcurrencyExceeded)
        else Admitted
  {
    var requests := t.requests;
    var live := set k | k in requests && k.0 == id && requests[k].InProgress? && now < requests[k].leaseExpiresAt;
    assert ActiveKeys(Purge(requests, id, now), id) == live;
  }

  /** With room in every budget, an unknown or expired call is admitted whatever expired reservations are left. */
  lemma AdmittedWhenRoom(t: Tables, id: string, call: string, now: real)
    requires id in t.capabilities
    requires (id, call) !in t.requests || (t.requests[(id, call)].InProgress? && t.requests[(id, call)].leaseExpiresAt <= now)
    requires WindowCount(t.windows, id, WindowStart(now)) < t.capabilities[id].budget.maxRequestsPerMinute
    requires t.capabilities[id].queryCount < t.capabilities[id].budget.maxQueries
    requires 0 < t.capabilities[id].budget.maxConcurrency
    requires forall k :: k in t.requests && k.0 == id && t.requests[k].InProgress? ==> t.requests[k].leaseExpiresAt <= now
    ensures RowOutcome(t, id, call, now) == Admitted
  {
    BeginOutcomeExactly(t, id, call, now);
    assert (set k | k in t.requests && k.0 == id && t.requests[k].InProgress? && now < t.requests[k].leaseExpiresAt) == {};
  }

  /** The reservations that `status` reports are those that a `begin` at the same time would count against the budget. */
  lemma StatusCountsWhatBeginCounts(t: Tables, id: string, call: string, now: real)
    requires id in t.capabilities
    ensures LiveReservations(t.requests, id, now) == ActiveKeys(Purge(t.requests, id, now), id)
    ensures RowOutcome(t, id, call, now).Admitted? ==>
      && |LiveReservations(t.requests, id, now)| < t.capabilities[id].budget.maxConcurrency
      && (0 <= t.capabilities[id].budget.latencyMs ==>
           |LiveReservations(Apply(t, Begin(id, call, now)).requests, id, now)| == |LiveReservations(t.requests, id, now)| + 1)
  {
    var after := Apply(t, Begin(id, call, now)).requests;
    var live, liveAfter := LiveReservations(t.requests, id, now), LiveReservations(after, id, now);
    assert live == ActiveKeys(Purge(t.requests, id, now), id);
    if RowOutcome(t, id, call, now).Admitted? && 0 <= t.capabilities[id].budget.latencyMs {
      var seconds := AdmissionStoresLease(t, id, call, now);
      assert (id, call) !in live;
      assert liveAfter == live + {(id, call)};
    }
  }

  /** A denial leaves the tables alone; otherwise exactly the capability's own ended reservations go. */
  lemma OtherRequestsAfterBegin(t: Tables, id: string, call: string, now: real, k: (string, string))
    requires id in t.capabilities && k != (id, call)
    ensures var t' := Apply(t, Begin(id, call, now));
      var ended := k in t.requests && k.0 == id && t.requests[k].InProgress? && t.requests[k].leaseExpiresAt <= now;
      && (k in t'.requests <==> k in t.requests && (RowOutcome(t, id, call, now).Denied? || !ended))
      && (k in t'.requests ==> t'.requests[k] == t.requests[k])
    ensures RowOutcome(t, id, call, now).Denied? ==> Apply(t, Begin(id, call, now)) == t
  {
  }

  // ------------------------------------------------------------- the lease

  /** An admission holds the call for its latency rounded up to whole seconds, and thirty seconds more. */
  lemma AdmissionStoresLease(t: Tables, id: string, call: string, now: real) returns (seconds: int)
    requires id in t.capabilities && RowOutcome(t, id, call, now).Admitted?
    ensures var t' := Apply(t, Begin(id, call, now));
      (id, call) in t'.requests && t'.requests[(id, call)] == InProgress(now + seconds as real)
    ensures var latency := t.capabilities[id].budget.latencyMs as real / 1000.0;
      latency + 30.0 <= seconds as real < latency + 31.0
  {
    seconds := LeaseSeconds(t.capabilities[id].budget);
    CeilingOfSeconds(t.capabilities[id].budget.latencyMs);
  }

  lemma CeilingOfSeconds(ms: int)
    ensures var up := -((-ms) / 1000);
      ms as real / 1000.0 <= up as real < ms as real / 1000.0 + 1.0
  {
    var up := -((-ms) / 1000);
    assert -ms == 1000 * ((-ms) / 1000) + (-ms) % 1000;
    assert 1000 * up - 1000 < ms <= 1000 * up;
    assert 1000.0 * up as real - 1000.0 < ms as real <= 1000.0 * up as real;
  }

  /** The stored lease is what a later reader of the run finds. */
  lemma LeaseEndIsLate(run: seq<Step>, i: nat)
    requires i < |run| && Admits(run, i)
    ensures run[i].now + After(run[..i]).capabilities[run[i].id].budget.latencyMs as real / 1000.0 + 30.0 <= LeaseEnd(run, i)
  {
    CeilingOfSeconds(After(run[..i]).capabilities[run[i].id].budget.latencyMs);
  }

  /**
    A tool call is not admitted again while it may still run: without an abort of it, and as
    long as the capability's committed calls read the clock before its latency and thirty
    seconds are over, no `begin` that reads it before then admits the call again.
   */
  lemma NotReadmittedWithinLatency(run: seq<Step>, i: nat, j: nat)
    requires i < j < |run| && Admits(run, i) && run[j].Begin? && run[j].id == run[i].id && run[j].call == run[i].call
    requires forall k :: i < k < j && run[k].Abort? ==> run[k].id != run[i].id || run[k].call != run[i].call
    requires forall k :: i < k <= j && run[k].Begin? && run[k].id == run[i].id && (k == j || Commits(run, k)) ==>
      run[k].now < run[i].now + After(run[..i]).capabilities[run[i].id].budget.latencyMs as real / 1000.0 + 30.0
    ensures !Admits(run, j)
  {
    LeaseEndIsLate(run, i);
    assert forall k :: i < k <= j ==> !Releases(run, k, run[i].id, run[i].call, LeaseEnd(run, i));
    if Admits(run, j) {
      AdmittedOnce(run, i, j);
    }
  }

  // ------------------------------------------------------- the other calls

  /** A capability lives from its issue for its lifetime, unrevoked and unused, under its token's digest. */
  lemma IssueStores(t: Tables, id: string, digest: string, budget: Budget, now: real, lifetime: int)
    requires id !in t.capabilities && forall other :: other in t.capabilities ==> t.capabilities[other].tokenDigest != digest
    ensures var t' := Apply(t, Issue(id, digest, budget, now, lifetime));
      && t'.requests == t.requests && t'.windows == t.windows
      && t'.capabilities == t.capabilities[id := CapabilityRow(digest, budget, now, now + lifetime as real, None, 0)]
  {
  }

  /** An abort takes away an in-progress row of its call, and nothing else. */
  lemma AbortReleases(t: Tables, id: string, call: string, k: (string, string))
    ensures var t' := Apply(t, Abort(id, call));
      && t'.capabilities == t.capabilities && t'.windows == t.windows
      && (k in t'.requests <==> k in t.requests && !(k == (id, call) && t.requests[k].InProgress?))
      && (k in t'.requests ==> t'.requests[k] == t.requests[k])
  {
  }

  /** A revocation stamps its own row only. */
  lemma RevokeStamps(t: Tables, id: string, now: real, other: string)
    requires other in t.capabilities
    ensures var t' := Apply(t, Revoke(id, now));
      && t'.requests == t.requests && t'.windows == t.windows && t'.capabilities.Keys == t.capabilities.Keys
      && t'.capabilities[other] == if other == id then t.capabilities[id].(revokedAt := Some(now)) else t.capabilities[other]
  {
  }

  /** The acknowledged state is written into the stored response, and into nothing else. */
  lemma AcknowledgeWrites(t: Tables, id: string, call: string, state: string, field: string)
    requires (id, call) in t.requests && t.requests[(id, call)].Completed?
    ensures var t' := Apply(t, Acknowledge(id, call, state));
      && t'.requests.Keys == t.requests.Keys && t'.requests[(id, call)].Completed?
      && var before, after := t.requests[(id, call)].response, t'.requests[(id, call)].response;
      && "deliveryState" in after && after["deliveryState"] == state
      && (field != "deliveryState" ==> (field in after <==> field in before) && (field in after ==> after[field] == before[field]))
  {
  }

  // -------------------------------------------------------- what is decided

  /** A capability is live in its scope exactly while it is active, which is before its expiry and unrevoked. */
  lemma LifecycleExactly(t: Tables, id: string, now: real)
    requires id in t.capabilities
    ensures var row := t.capabilities[id];
      && (LifecycleOf(row, now) == RevokedState <==> row.revokedAt.Some?)
      && (LifecycleOf(row, now) == ActiveState <==> row.revokedAt.None? && now < row.expiresAt)
      && (LifecycleOf(row, now) == ExpiredState <==> row.revokedAt.None? && row.expiresAt <= now)
      && (LifecycleOf(row, now) == ActiveState <==> id in LiveInScope(t, row.budget.scope, now))
  {
  }

  /** A row admits its own host, session and run while it is active, and says why it refuses anyone else. */
  lemma VerdictExactly(id: string, row: CapabilityRow, host: string, session: string, run: string, now: real)
    ensures var verdict := Verdict(id, row, host, session, run, now);
      var own := host == row.budget.scope.hostId && session == row.budget.scope.sessionId && run == row.budget.scope.runId;
      && (verdict == Ok(id) <==> row.revokedAt.None? && now < row.expiresAt && own)
      && (verdict == Err(Revoked) <==> row.revokedAt.Some?)
      && (verdict == Err(Refusal.Expired) <==> row.revokedAt.None? && row.expiresAt <= now)
      && (verdict == Err(IdentityMismatch) <==> row.revokedAt.None? && now < row.expiresAt && !own)
  {
  }

  lemma InOneOfFour(a: seq<ScopeField>, b: seq<ScopeField>, c: seq<ScopeField>, d: seq<ScopeField>, f: ScopeField)
    ensures f in a + b + c + d <==> f in a || f in b || f in c || f in d
  {
    assert f in a + b + c + d <==> f in a + b + c || f in d;
    assert f in a + b + c <==> f in a + b || f in c;
  }

  lemma FieldIsMissing(scope: Scope, f: ScopeField)
    ensures f in MissingFields(scope) <==>
      match f
      case RunId => Strip(scope.runId) == ""
      case HostId => Strip(scope.hostId) == ""
      case SessionId => Strip(scope.sessionId) == ""
      case StepId => Strip(scope.stepId) == ""
  {
    hide Strip;
    InOneOfFour(
      if Strip(scope.runId) == "" then [RunId] else [],
      if Strip(scope.hostId) == "" then [HostId] else [],
      if Strip(scope.sessionId) == "" then [SessionId] else [],
      if Strip(scope.stepId) == "" then [StepId] else [],
      f);
  }

  function Rank(f: ScopeField): nat {
    match f
    case RunId => 0
    case HostId => 1
    case SessionId => 2
    case StepId => 3
  }

  /** The missing fields are named in the order run, host, session, step. */
  lemma MissingInOrder(scope: Scope)
    ensures var missing := MissingFields(scope);
      forall i, j :: 0 <= i < j < |missing| ==> Rank(missing[i]) < Rank(missing[j])
  {
    hide Strip;
  }

  /** A scope field is missing exactly if it is blank. */
  lemma MissingExactly(scope: Scope)
    ensures RunId in MissingFields(scope) <==> Blank(scope.runId)
    ensures HostId in MissingFields(scope) <==> Blank(scope.hostId)
    ensures SessionId in MissingFields(scope) <==> Blank(scope.sessionId)
    ensures StepId in MissingFields(scope) <==> Blank(scope.stepId)
  {
    hide Strip, Blank, MissingFields;
    FieldIsMissing(scope, RunId);
    FieldIsMissing(scope, HostId);
    FieldIsMissing(scope, SessionId);
    FieldIsMissing(scope, StepId);
    StripBlank(scope.runId);
    StripBlank(scope.hostId);
    StripBlank(scope.sessionId);
    StripBlank(scope.stepId);
  }
}
