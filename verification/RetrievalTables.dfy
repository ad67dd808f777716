/**
  The durable tables of the retrieval capability registry and the atomic steps on them.

  A step is one committed (or rolled back) transaction of one registry.  Any number of
  registries may share the tables, so a system run is simply a sequence of steps.
 */
module RetrievalTables {
  import opened Outcomes

  const LEASE_GRACE_SECONDS := 30

  /** A lifecycle boundary: the four identifiers a capability is scoped by. */
  datatype Scope = Scope(runId: string, hostId: string, sessionId: string, stepId: string)

  /** The budget fields that the modelled operations read. */
  datatype Budget = Budget(
    scope: Scope,
    latencyMs: int,
    maxQueries: int,
    maxConcurrency: int,
    maxRequestsPerMinute: int
  )

  type Response = map<string, string>

  /** One row of `retrieval_capabilities`, without its primary key. */
  datatype CapabilityRow = CapabilityRow(
    tokenDigest: string,
    budget: Budget,
    issuedAt: real,
    expiresAt: real,
    revokedAt: Option<real>,
    queryCount: int
  )

  /** One row of `retrieval_requests`: a leased reservation, then the terminal response. */
  datatype RequestRow = InProgress(leaseExpiresAt: real) | Completed(response: Response)

  datatype Tables = Tables(
    capabilities: map<string, CapabilityRow>,
    requests: map<(string, string), RequestRow>,
    windows: map<(string, int), int>
  )

  const EMPTY := Tables(map[], map[], map[])

  datatype Lifecycle = ActiveState | ExpiredState | RevokedState

  /** The state that `status` reports for a capability at a clock reading. */
  function LifecycleOf(row: CapabilityRow, now: real): Lifecycle {
    if row.revokedAt.Some? then RevokedState else if now >= row.expiresAt then ExpiredState else ActiveState
  }

  datatype DenialReason =
    | DuplicateInFlight
    | RateExceeded
    | BudgetExhausted
    | ConcurrencyExceeded
    | NoCapabilityRow

  datatype BeginOutcome = Admitted | Replayed(response: Response) | Denied(reason: DenialReason)

  /** Seconds a reservation may live: the latency ceiling rounded up to seconds, plus the grace. */
  function LeaseSeconds(budget: Budget): int {
    -((-budget.latencyMs) / 1000) + LEASE_GRACE_SECONDS
  }

  /** The start of the fixed 60-second window a clock reading falls into. */
  function WindowStart(now: real): int {
    (now / 60.0).Floor * 60
  }

  predicate Expired(row: RequestRow, now: real) {
    row.InProgress? && row.leaseExpiresAt <= now
  }

  function Purge(requests: map<(string, string), RequestRow>, id: string, now: real): map<(string, string), RequestRow> {
    map k | k in requests && !(k.0 == id && Expired(requests[k], now)) :: requests[k]
  }

  function ActiveKeys(requests: map<(string, string), RequestRow>, id: string): set<(string, string)> {
    set k | k in requests && k.0 == id && requests[k].InProgress?
  }

  /** The reservations of a capability whose lease has not ended. */
  function LiveReservations(requests: map<(string, string), RequestRow>, id: string, now: real): set<(string, string)> {
    set k | k in requests && k.0 == id && requests[k].InProgress? && requests[k].leaseExpiresAt > now
  }

  function WindowCount(windows: map<(string, int), int>, id: string, window: int): int {
    if (id, window) in windows then windows[(id, window)] else 0
  }

  /** What the transaction decides, looking at the requests that survive the purge. */
  function Decide(t: Tables, kept: map<(string, string), RequestRow>, id: string, budget: Budget, call: string, now: real): BeginOutcome {
    if (id, call) in kept then
      (match kept[(id, call)]
       case Completed(response) => Replayed(response)
       case InProgress(_) => Denied(DuplicateInFlight))
    else if WindowCount(t.windows, id, WindowStart(now)) >= budget.maxRequestsPerMinute then Denied(RateExceeded)
    else if id !in t.capabilities then Denied(NoCapabilityRow)
    else if t.capabilities[id].queryCount >= budget.maxQueries then Denied(BudgetExhausted)
    else if |ActiveKeys(kept, id)| >= budget.maxConcurrency then Denied(ConcurrencyExceeded)
    else Admitted
  }

  function BeginOutcomeOf(t: Tables, id: string, budget: Budget, call: string, now: real): BeginOutcome {
    Decide(t, Purge(t.requests, id, now), id, budget, call, now)
  }

  /** The tables after `begin`.  A denial raises inside the transaction and rolls the purge back. */
  function BeginTables(t: Tables, id: string, budget: Budget, call: string, now: real): Tables {
    var kept := Purge(t.requests, id, now);
    match Decide(t, kept, id, budget, call, now)
    case Denied(_) => t
    case Replayed(_) => t.(requests := kept)
    case Admitted =>
      var row := t.capabilities[id];
      var w := WindowStart(now);
      Tables(
        t.capabilities[id := row.(queryCount := row.queryCount + 1)],
        kept[(id, call) := InProgress(now + LeaseSeconds(budget) as real)],
        t.windows[(id, w) := WindowCount(t.windows, id, w) + 1])
  }

  function IssueTables(t: Tables, id: string, digest: string, budget: Budget, now: real, lifetime: int): Tables {
    if id in t.capabilities || DigestInUse(t, digest) then t
    else t.(capabilities := t.capabilities[id := CapabilityRow(digest, budget, now, now + lifetime as real, None, 0)])
  }

  predicate DigestInUse(t: Tables, digest: string) {
    exists id :: id in t.capabilities && t.capabilities[id].tokenDigest == digest
  }

  function FinishTables(t: Tables, id: string, call: string, response: Response): Tables {
    t.(requests := t.requests[(id, call) := Completed(response)])
  }

  function AbortTables(t: Tables, id: string, call: string): Tables {
    if (id, call) in t.requests && t.requests[(id, call)].InProgress? then t.(requests := t.requests - {(id, call)}) else t
  }

  function RevokeTables(t: Tables, id: string, now: real): Tables {
    if id in t.capabilities
    then t.(capabilities := t.capabilities[id := t.capabilities[id].(revokedAt := Some(now))])
    else t
  }

  predicate RevokedByScope(row: CapabilityRow, scope: Scope) {
    row.revokedAt.None? && row.budget.scope == scope
  }

  /** `stamp` gives the clock reading taken while each row is being revoked. */
  function RevokeScopeTables(t: Tables, scope: Scope, stamp: string -> real): Tables {
    t.(capabilities := map id | id in t.capabilities ::
      if RevokedByScope(t.capabilities[id], scope)
      then t.capabilities[id].(revokedAt := Some(stamp(id)))
      else t.capabilities[id])
  }

  function WithDelivery(response: Response, state: string): Response {
    response["deliveryState" := state]
  }

  function AcknowledgeTables(t: Tables, id: string, call: string, state: string): Tables {
    if (id, call) in t.requests && t.requests[(id, call)].Completed?
    then t.(requests := t.requests[(id, call) := Completed(WithDelivery(t.requests[(id, call)].response, state))])
    else t
  }

  /** One committed call of some registry on the shared tables. */
  datatype Step =
    | Issue(id: string, digest: string, budget: Budget, now: real, lifetime: int)
    | Begin(id: string, call: string, now: real)
    | Finish(id: string, call: string, response: Response)
    | Abort(id: string, call: string)
    | Revoke(id: string, now: real)
    | RevokeScope(scope: Scope, stamp: string -> real)
    | Acknowledge(id: string, call: string, state: string)

  /** The outcome of `begin` with the budget stored in the capability's own row. */
  function RowOutcome(t: Tables, id: string, call: string, now: real): BeginOutcome {
    if id in t.capabilities then BeginOutcomeOf(t, id, t.capabilities[id].budget, call, now) else Denied(NoCapabilityRow)
  }

  function Apply(t: Tables, step: Step): Tables {
    match step
    case Issue(id, digest, budget, now, lifetime) => IssueTables(t, id, digest, budget, now, lifetime)
    case Begin(id, call, now) =>
      if id in t.capabilities then BeginTables(t, id, t.capabilities[id].budget, call, now) else t
    case Finish(id, call, response) => FinishTables(t, id, call, response)
    case Abort(id, call) => AbortTables(t, id, call)
    case Revoke(id, now) => RevokeTables(t, id, now)
    case RevokeScope(scope, stamp) => RevokeScopeTables(t, scope, stamp)
    case Acknowledge(id, call, state) => AcknowledgeTables(t, id, call, state)
  }

  /** The tables a run of steps leaves behind, starting from an empty database. */
  ghost function After(run: seq<Step>): Tables {
    if run == [] then EMPTY else Apply(After(run[..|run| - 1]), run[|run| - 1])
  }

  // ---------------------------------------------------------------- budgets

  ghost function SumOver(m: map<(string, int), int>, keys: set<(string, int)>): int
    requires keys <= m.Keys
  {
    if keys == {} then 0 else
      var k :| k in keys;
      m[k] + SumOver(m, keys - {k})
  }

  ghost function WindowKeys(windows: map<(string, int), int>, id: string): set<(string, int)> {
    set k | k in windows && k.0 == id
  }

  /** All requests ever charged to a capability's rate windows. */
  ghost function WindowTotal(windows: map<(string, int), int>, id: string): int {
    SumOver(windows, WindowKeys(windows, id))
  }

  /** The accounting facts of one capability row. */
  ghost predicate WithinBudget(t: Tables, id: string)
    requires id in t.capabilities
  {
    var row := t.capabilities[id];
    && 0 <= row.queryCount <= Pos(row.budget.maxQueries)
    && |ActiveKeys(t.requests, id)| <= Pos(row.budget.maxConcurrency)
    && (forall w :: (id, w) in t.windows ==> 0 <= t.windows[(id, w)] <= Pos(row.budget.maxRequestsPerMinute))
    && row.queryCount == WindowTotal(t.windows, id)
  }

  /** The UNIQUE constraint on token digests. */
  ghost predicate DigestsDistinct(t: Tables) {
    forall i, j :: i in t.capabilities && j in t.capabilities && t.capabilities[i].tokenDigest == t.capabilities[j].tokenDigest ==> i == j
  }

  ghost predicate TablesInvariant(t: Tables) {
    && (forall k :: k in t.windows ==> k.0 in t.capabilities)
    && (forall k :: k in t.requests && t.requests[k].InProgress? ==> k.0 in t.capabilities)
    && DigestsDistinct(t)
    && (forall id :: id in t.capabilities ==> WithinBudget(t, id))
  }

  lemma {:induction false} SumOverPick(m: map<(string, int), int>, keys: set<(string, int)>, k: (string, int))
    requires keys <= m.Keys && k in keys
    ensures SumOver(m, keys) == m[k] + SumOver(m, keys - {k})
    decreases keys
  {
    var c :| c in keys && SumOver(m, keys) == m[c] + SumOver(m, keys - {c});
    if c != k {
      SumOverPick(m, keys - {c}, k);
      SumOverPick(m, keys - {k}, c);
      assert keys - {c} - {k} == keys - {k} - {c};
    }
  }

  lemma {:induction false} SumOverAgrees(m: map<(string, int), int>, n: map<(string, int), int>, keys: set<(string, int)>)
    requires keys <= m.Keys && keys <= n.Keys
    requires forall k :: k in keys ==> m[k] == n[k]
    ensures SumOver(m, keys) == SumOver(n, keys)
    decreases keys
  {
    if keys != {} {
      var k :| k in keys;
      SumOverPick(m, keys, k);
      SumOverPick(n, keys, k);
      SumOverAgrees(m, n, keys - {k});
    }
  }

  /** Charging one request to a window adds exactly one to that capability's total, to no other's. */
  lemma ChargeWindow(windows: map<(string, int), int>, id: string, w: int, other: string)
    ensures WindowTotal(windows[(id, w) := WindowCount(windows, id, w) + 1], other)
         == WindowTotal(windows, other) + (if other == id then 1 else 0)
  {
    var charged := windows[(id, w) := WindowCount(windows, id, w) + 1];
    var k := (id, w);
    var before := WindowKeys(windows, other);
    var after := WindowKeys(charged, other);
    if other == id {
      assert after == before + {k};
      SumOverPick(charged, after, k);
      assert after - {k} == before - {k};
      SumOverAgrees(charged, windows, before - {k});
      if k in before {
        SumOverPick(windows, before, k);
      } else {
        assert before - {k} == before;
      }
    } else {
      assert after == before;
      SumOverAgrees(charged, windows, before);
    }
  }

  /** A reservation takes one slot of its capability; the purge before it frees no slot of another one. */
  lemma ReserveSlot(requests: map<(string, string), RequestRow>, id: string, call: string, now: real, lease: real, other: string)
    requires (id, call) !in Purge(requests, id, now)
    ensures var reserved := Purge(requests, id, now)[(id, call) := InProgress(lease)];
      if other == id then |ActiveKeys(reserved, id)| == |ActiveKeys(Purge(requests, id, now), id)| + 1
      else ActiveKeys(reserved, other) == ActiveKeys(requests, other)
  {
    var kept := Purge(requests, id, now);
    var reserved := kept[(id, call) := InProgress(lease)];
    if other == id {
      assert ActiveKeys(reserved, id) == ActiveKeys(kept, id) + {(id, call)};
    } else {
      assert ActiveKeys(reserved, other) == ActiveKeys(requests, other);
    }
  }

  lemma ActiveShrinks(before: map<(string, string), RequestRow>, after: map<(string, string), RequestRow>, id: string)
    requires forall k :: k in after && after[k].InProgress? ==> k in before && before[k].InProgress?
    ensures |ActiveKeys(after, id)| <= |ActiveKeys(before, id)|
  {
    SubsetCardinality(ActiveKeys(after, id), ActiveKeys(before, id));
  }

  lemma {:induction false} SubsetCardinality(a: set<(string, string)>, b: set<(string, string)>)
    requires a <= b
    ensures |a| <= |b|
  {
    if a != {} {
      var k :| k in a;
      SubsetCardinality(a - {k}, b - {k});
    }
  }

  lemma AdmissionKeepsRow(t: Tables, id: string, call: string, now: real, other: string)
    requires TablesInvariant(t) && id in t.capabilities && other in t.capabilities
    requires RowOutcome(t, id, call, now).Admitted?
    ensures WithinBudget(BeginTables(t, id, t.capabilities[id].budget, call, now), other)
  {
    hide Purge, ActiveKeys, WindowTotal, LeaseSeconds, WindowStart;
    var budget := t.capabilities[id].budget;
    var t' := BeginTables(t, id, budget, call, now);
    assert WithinBudget(t, other);
    assert WithinBudget(t, id);
    ReserveSlot(t.requests, id, call, now, now + LeaseSeconds(budget) as real, other);
    ChargeWindow(t.windows, id, WindowStart(now), other);
    assert t'.windows == t.windows[(id, WindowStart(now)) := WindowCount(t.windows, id, WindowStart(now)) + 1];
  }

  lemma AdmissionKeepsOwners(t: Tables, id: string, call: string, now: real)
    requires TablesInvariant(t) && id in t.capabilities
    requires RowOutcome(t, id, call, now).Admitted?
    ensures var t' := BeginTables(t, id, t.capabilities[id].budget, call, now);
      && t'.capabilities.Keys == t.capabilities.Keys && DigestsDistinct(t')
      && (forall k :: k in t'.windows ==> k.0 in t'.capabilities)
      && (forall k :: k in t'.requests && t'.requests[k].InProgress? ==> k.0 in t'.capabilities)
  {
    hide ActiveKeys, WindowCount, WindowTotal, LeaseSeconds, WindowStart, WithinBudget;
  }

  lemma AdmissionKeepsInvariant(t: Tables, id: string, call: string, now: real)
    requires TablesInvariant(t) && id in t.capabilities
    requires RowOutcome(t, id, call, now).Admitted?
    ensures TablesInvariant(BeginTables(t, id, t.capabilities[id].budget, call, now))
  {
    var t' := BeginTables(t, id, t.capabilities[id].budget, call, now);
    AdmissionKeepsOwners(t, id, call, now);
    hide BeginTables, RowOutcome, WithinBudget;
    forall other | other in t'.capabilities
      ensures WithinBudget(t', other)
    {
      AdmissionKeepsRow(t, id, call, now, other);
    }
  }

  lemma FreshWithinBudget(t: Tables, id: string)
    requires id in t.capabilities && t.capabilities[id].queryCount == 0
    requires forall k :: k in t.windows ==> k.0 != id
    requires forall k :: k in t.requests && t.requests[k].InProgress? ==> k.0 != id
    ensures WithinBudget(t, id)
  {
    assert ActiveKeys(t.requests, id) == {};
    assert WindowKeys(t.windows, id) == {};
  }

  lemma IssueKeepsInvariant(t: Tables, id: string, digest: string, budget: Budget, now: real, lifetime: int)
    requires TablesInvariant(t)
    ensures TablesInvariant(IssueTables(t, id, digest, budget, now, lifetime))
  {
    var t' := IssueTables(t, id, digest, budget, now, lifetime);
    if t' != t {
      forall other | other in t'.capabilities
        ensures WithinBudget(t', other)
      {
        if other == id {
          FreshWithinBudget(t', id);
        } else {
          assert WithinBudget(t, other);
        }
      }
    }
  }

  lemma RequestUpdateKeepsInvariant(t: Tables, requests: map<(string, string), RequestRow>)
    requires TablesInvariant(t)
    requires forall k :: k in requests && requests[k].InProgress? ==> k in t.requests && t.requests[k].InProgress?
    ensures TablesInvariant(t.(requests := requests))
  {
    forall id | id in t.capabilities
      ensures WithinBudget(t.(requests := requests), id)
    {
      assert WithinBudget(t, id);
      ActiveShrinks(t.requests, requests, id);
    }
  }

  lemma RevocationKeepsInvariant(t: Tables, rows: map<string, CapabilityRow>)
    requires TablesInvariant(t)
    requires rows.Keys == t.capabilities.Keys
    requires forall id :: id in rows ==> rows[id] == t.capabilities[id].(revokedAt := rows[id].revokedAt)
    ensures TablesInvariant(t.(capabilities := rows))
  {
    forall id | id in rows
      ensures WithinBudget(t.(capabilities := rows), id)
    {
      assert WithinBudget(t, id);
    }
  }

  lemma BeginKeepsInvariant(t: Tables, id: string, call: string, now: real)
    requires TablesInvariant(t) && id in t.capabilities
    ensures TablesInvariant(BeginTables(t, id, t.capabilities[id].budget, call, now))
  {
    match RowOutcome(t, id, call, now)
    case Admitted => AdmissionKeepsInvariant(t, id, call, now);
    case Replayed(_) => RequestUpdateKeepsInvariant(t, Purge(t.requests, id, now));
    case Denied(_) =>
  }

  /** Every step of every registry keeps every budget of every capability. */
  lemma StepKeepsInvariant(t: Tables, step: Step)
    requires TablesInvariant(t)
    ensures TablesInvariant(Apply(t, step))
  {
    hide TablesInvariant;
    match step
    case Issue(id, digest, budget, now, lifetime) => IssueKeepsInvariant(t, id, digest, budget, now, lifetime);
    case Begin(id, call, now) =>
      if id in t.capabilities {
        BeginKeepsInvariant(t, id, call, now);
      }
    case Finish(id, call, response) => RequestUpdateKeepsInvariant(t, FinishTables(t, id, call, response).requests);
    case Abort(id, call) => RequestUpdateKeepsInvariant(t, AbortTables(t, id, call).requests);
    case Revoke(id, now) => RevocationKeepsInvariant(t, RevokeTables(t, id, now).capabilities);
    case RevokeScope(scope, stamp) => RevocationKeepsInvariant(t, RevokeScopeTables(t, scope, stamp).capabilities);
    case Acknowledge(id, call, state) => RequestUpdateKeepsInvariant(t, AcknowledgeTables(t, id, call, state).requests);
  }

  /** Safety over every run, with any number of registries and any clock readings. */
  lemma {:induction false} ReachableWithinBudget(run: seq<Step>)
    ensures TablesInvariant(After(run))
    ensures forall id :: id in After(run).capabilities ==> WithinBudget(After(run), id)
  {
    if run != [] {
      ReachableWithinBudget(run[..|run| - 1]);
      StepKeepsInvariant(After(run[..|run| - 1]), run[|run| - 1]);
    }
  }
}
