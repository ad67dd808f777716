/**
  The registry object: a short-lived cache of capability projections in front of the shared tables.

  Every method is one call of the source, proved against the table step of module
  RetrievalTables.  `Linked` is what a registry may rely on whoever else writes to the
  tables; `Coherent` is what holds while it is the only writer.
 */
module RetrievalRegistry {
  import opened Outcomes
  import opened PyText
  import opened RetrievalTables
  import opened RetrievalRuns

  class Database {
    var tables: Tables

    constructor ()
      ensures tables == EMPTY
    {
      tables := EMPTY;
    }
  }

  /** An in-memory projection of one capability row. */
  class Capability {
    const capabilityId: string
    const tokenDigest: string
    const budget: Budget
    const issuedAt: real
    const expiresAt: real
    var revokedAt: Option<real>
    var queryCount: int
    var deduplicated: map<string, Response>

    constructor FromRow(id: string, row: CapabilityRow)
      ensures capabilityId == id && Snapshot() == row && deduplicated == map[]
    {
      capabilityId := id;
      tokenDigest := row.tokenDigest;
      budget := row.budget;
      issuedAt := row.issuedAt;
      expiresAt := row.expiresAt;
      revokedAt := row.revokedAt;
      queryCount := row.queryCount;
      deduplicated := map[];
    }

    function Snapshot(): CapabilityRow
      reads this
    {
      CapabilityRow(tokenDigest, budget, issuedAt, expiresAt, revokedAt, queryCount)
    }

    /** The projection names a stored row and has its immutable part right. */
    ghost predicate NamesRow(t: Tables)
      reads this
    {
      capabilityId in t.capabilities && SameIdentity(Snapshot(), t.capabilities[capabilityId])
    }

    /** The projection is as good as its row: it may lag only in the query count. */
    ghost predicate CurrentIn(t: Tables)
      reads this
    {
      && NamesRow(t)
      && revokedAt == t.capabilities[capabilityId].revokedAt
      && queryCount <= t.capabilities[capabilityId].queryCount
    }
  }

  datatype Refusal = Invalid | Revoked | Expired | IdentityMismatch

  /** What authority a row gives a caller at a clock reading. */
  function Judge(row: CapabilityRow, hostId: string, sessionId: string, runId: string, now: real): Result<(), Refusal> {
    if row.revokedAt.Some? then Err(Revoked)
    else if now >= row.expiresAt then Err(Expired)
    else if (hostId, sessionId, runId) != (row.budget.scope.hostId, row.budget.scope.sessionId, row.budget.scope.runId) then Err(IdentityMismatch)
    else Ok(())
  }

  ghost function RowByDigest(t: Tables, digest: string): Option<string> {
    if id :| id in t.capabilities && t.capabilities[id].tokenDigest == digest then Some(id) else None
  }

  /** The decision of a registry without any cache: judge the row that the token's digest names. */
  ghost function CacheFreeResolve(t: Tables, digest: string, hostId: string, sessionId: string, runId: string, now: real): Result<string, Refusal> {
    match RowByDigest(t, digest)
    case None => Err(Invalid)
    case Some(id) => Verdict(id, t.capabilities[id], hostId, sessionId, runId, now)
  }

  /** The judgement of a row or of its projection, naming the capability it admits. */
  function Verdict(id: string, row: CapabilityRow, hostId: string, sessionId: string, runId: string, now: real): Result<string, Refusal> {
    match Judge(row, hostId, sessionId, runId, now)
    case Ok(_) => Ok(id)
    case Err(refusal) => Err(refusal)
  }

  /** A projection decides like its row for every caller and clock exactly when both agree on being revoked. */
  lemma ProjectionDecidesLikeRow(id: string, projection: CapabilityRow, row: CapabilityRow)
    requires SameIdentity(projection, row)
    ensures (forall host, session, run, now :: Verdict(id, projection, host, session, run, now) == Verdict(id, row, host, session, run, now))
       <==> projection.revokedAt.Some? == row.revokedAt.Some?
  {
    var scope := row.budget.scope;
    var at := row.expiresAt;
    assert Verdict(id, projection, scope.hostId, scope.sessionId, scope.runId, at) == (if projection.revokedAt.Some? then Err(Revoked) else Err(Expired));
    assert Verdict(id, row, scope.hostId, scope.sessionId, scope.runId, at) == (if row.revokedAt.Some? then Err(Revoked) else Err(Expired));
  }

  lemma RowOfDigest(t: Tables, digest: string, id: string)
    requires DigestsDistinct(t) && id in t.capabilities && t.capabilities[id].tokenDigest == digest
    ensures RowByDigest(t, digest) == Some(id)
  {
  }

  datatype ScopeField = RunId | HostId | SessionId | StepId

  /** The scope identifiers that are blank, in the order they are checked. */
  function MissingFields(scope: Scope): seq<ScopeField> {
    (if Strip(scope.runId) == "" then [RunId] else []) +
    (if Strip(scope.hostId) == "" then [HostId] else []) +
    (if Strip(scope.sessionId) == "" then [SessionId] else []) +
    (if Strip(scope.stepId) == "" then [StepId] else [])
  }

  datatype Status = Status(state: Lifecycle, queryCount: int, activeRequests: int, requestsInCurrentMinute: int)

  /** The tables while a scope revocation still has the rows `remaining` to visit. */
  function RevokedSoFar(t: Tables, scope: Scope, stamp: string -> real, remaining: set<string>): Tables {
    t.(capabilities := map id | id in t.capabilities ::
      if id !in remaining && RevokedByScope(t.capabilities[id], scope)
      then t.capabilities[id].(revokedAt := Some(stamp(id)))
      else t.capabilities[id])
  }

  lemma RevokedSoFarStep(t: Tables, scope: Scope, stamp: string -> real, remaining: set<string>, id: string)
    requires id in remaining && id in t.capabilities
    ensures RevokedSoFar(t, scope, stamp, remaining - {id})
      == if RevokedByScope(t.capabilities[id], scope)
         then RevokeTables(RevokedSoFar(t, scope, stamp, remaining), id, stamp(id))
         else RevokedSoFar(t, scope, stamp, remaining)
  {
    var now := RevokedSoFar(t, scope, stamp, remaining).capabilities;
    var next := RevokedSoFar(t, scope, stamp, remaining - {id}).capabilities;
    if RevokedByScope(t.capabilities[id], scope) {
      assert next == now[id := t.capabilities[id].(revokedAt := Some(stamp(id)))];
    } else {
      assert next == now;
    }
  }

  lemma RevokedSoFarEnd(t: Tables, scope: Scope, stamp: string -> real)
    ensures RevokedSoFar(t, scope, stamp, t.capabilities.Keys) == t
    ensures RevokedSoFar(t, scope, stamp, {}) == RevokeScopeTables(t, scope, stamp)
  {
    assert RevokedSoFar(t, scope, stamp, t.capabilities.Keys).capabilities == t.capabilities;
    assert RevokedSoFar(t, scope, stamp, {}).capabilities == RevokeScopeTables(t, scope, stamp).capabilities;
  }

  class Registry {
    const database: Database
    const digest: string -> string
    var capabilities: map<string, Capability>
    var byDigest: map<string, string>

    constructor (database: Database, digest: string -> string)
      ensures this.database == database && this.digest == digest
      ensures capabilities == map[] && byDigest == map[]
    {
      this.database := database;
      this.digest := digest;
      capabilities := map[];
      byDigest := map[];
    }

    /** Holds even while other registries write to the database. */
    ghost predicate Linked()
      reads this, database, capabilities.Values
    {
      && (forall id :: id in capabilities ==> capabilities[id].capabilityId == id && capabilities[id].NamesRow(database.tables))
      && (forall d :: d in byDigest ==> byDigest[d] in database.tables.capabilities && database.tables.capabilities[byDigest[d]].tokenDigest == d)
    }

    /** Holds while this registry is the only writer. */
    ghost predicate Coherent()
      reads this, database, capabilities.Values
    {
      && Linked()
      && (forall id :: id in capabilities ==> capabilities[id].CurrentIn(database.tables))
    }

    method Issue(budget: Budget, lifetimeSeconds: int, now: real, token: string, freshId: string) returns (capability: Capability)
      requires freshId !in database.tables.capabilities && !DigestInUse(database.tables, digest(token))
      requires Linked()
      modifies this, database
      ensures database.tables == IssueTables(old(database.tables), freshId, digest(token), budget, now, lifetimeSeconds)
      ensures fresh(capability) && capability.capabilityId == freshId
      ensures freshId in database.tables.capabilities && capability.Snapshot() == database.tables.capabilities[freshId]
      ensures capability.Snapshot() == CapabilityRow(digest(token), budget, now, now + lifetimeSeconds as real, None, 0)
      ensures capabilities == old(capabilities)[freshId := capability]
      ensures byDigest == old(byDigest)[digest(token) := freshId]
      ensures Linked() && (old(Coherent()) ==> Coherent())
    {
      var row := CapabilityRow(digest(token), budget, now, now + lifetimeSeconds as real, None, 0);
      capability := new Capability.FromRow(freshId, row);
      capabilities := capabilities[freshId := capability];
      byDigest := byDigest[capability.tokenDigest := freshId];
      database.tables := database.tables.(capabilities := database.tables.capabilities[freshId := row]);
    }

    /** The projection that a token's digest is cached under. */
    function CachedFor(d: string): Option<string>
      reads this
    {
      if d in byDigest && byDigest[d] in capabilities then Some(byDigest[d]) else None
    }

    /** What `Resolve` decides: a cached projection is judged as it stands, anything else is looked up. */
    ghost function ResolveDecision(d: string, hostId: string, sessionId: string, runId: string, now: real): Result<string, Refusal>
      reads this, database, capabilities.Values
    {
      match CachedFor(d)
      case Some(id) => Verdict(id, capabilities[id].Snapshot(), hostId, sessionId, runId, now)
      case None => CacheFreeResolve(database.tables, d, hostId, sessionId, runId, now)
    }

    /**
      Whoever else writes to the tables, the registry decides every call for a token like one
      without a cache exactly if it has no projection of it, or one that agrees with the row on
      being revoked.
     */
    lemma DecidesLikeUncachedExactly(d: string)
      requires Linked() && DigestsDistinct(database.tables)
      ensures (forall host, session, run, now ::
          ResolveDecision(d, host, session, run, now) == CacheFreeResolve(database.tables, d, host, session, run, now))
        <==> (CachedFor(d).Some? ==>
          && CachedFor(d).value in database.tables.capabilities
          && capabilities[CachedFor(d).value].revokedAt.Some? == database.tables.capabilities[CachedFor(d).value].revokedAt.Some?)
    {
      if CachedFor(d).Some? {
        var id := CachedFor(d).value;
        var projection, row := capabilities[id].Snapshot(), database.tables.capabilities[id];
        RowOfDigest(database.tables, d, id);
        ProjectionDecidesLikeRow(id, projection, row);
        assert forall host, session, run, now ::
          ResolveDecision(d, host, session, run, now) == Verdict(id, projection, host, session, run, now)
          && CacheFreeResolve(database.tables, d, host, session, run, now) == Verdict(id, row, host, session, run, now);
      }
    }

    /** A registry that is the only writer decides as if it had no cache. */
    lemma CoherentDecidesLikeUncached(d: string, hostId: string, sessionId: string, runId: string, now: real)
      requires Coherent() && DigestsDistinct(database.tables)
      ensures ResolveDecision(d, hostId, sessionId, runId, now) == CacheFreeResolve(database.tables, d, hostId, sessionId, runId, now)
    {
      DecidesLikeUncachedExactly(d);
    }

    /** The cached projection of a digest, or one hydrated from the row that the digest names. */
    method Lookup(d: string) returns (found: Option<Capability>)
      requires Linked()
      modifies this
      ensures Linked() && (old(Coherent()) ==> Coherent())
      ensures forall id :: id in old(capabilities) ==> id in capabilities
      ensures old(CachedFor(d)).Some? ==>
        found == Some(old(capabilities[CachedFor(d).value])) && capabilities == old(capabilities) && byDigest == old(byDigest)
      ensures old(CachedFor(d)).None? && found.Some? ==>
        && found.value.capabilityId in database.tables.capabilities
        && found.value.Snapshot() == database.tables.capabilities[found.value.capabilityId]
        && found.value.Snapshot().tokenDigest == d
      ensures found.Some? ==> found.value.NamesRow(database.tables) && found.value.tokenDigest == d
      ensures found.None? ==> !DigestInUse(database.tables, d)
    {
      var cached := CachedFor(d);
      if cached.Some? {
        return Some(capabilities[cached.value]);
      }
      if id :| id in database.tables.capabilities && database.tables.capabilities[id].tokenDigest == d {
        var hydrated := new Capability.FromRow(id, database.tables.capabilities[id]);
        capabilities := capabilities[id := hydrated];
        byDigest := byDigest[d := id];
        return Some(hydrated);
      }
      found := None;
    }

    method Resolve(token: string, hostId: string, sessionId: string, runId: string, now: real) returns (r: Result<Capability, Refusal>)
      requires Linked()
      modifies this
      ensures Linked() && (old(Coherent()) ==> Coherent())
      ensures old(CachedFor(digest(token))).Some? || DigestsDistinct(database.tables) ==>
        old(ResolveDecision(digest(token), hostId, sessionId, runId, now))
        == match r case Ok(capability) => Ok(capability.capabilityId) case Err(refusal) => Err(refusal)
      ensures r.Ok? ==> r.value.NamesRow(database.tables) && r.value.tokenDigest == digest(token)
      ensures r.Ok? ==>
        && r.value.revokedAt.None? && now < r.value.expiresAt
        && hostId == r.value.budget.scope.hostId && sessionId == r.value.budget.scope.sessionId && runId == r.value.budget.scope.runId
      ensures forall id :: id in old(capabilities) ==> id in capabilities
    {
      ghost var cached := CachedFor(digest(token));
      var found := Lookup(digest(token));
      if found.None? {
        return Err(Invalid);
      }
      var capability := found.value;
      if cached.None? && DigestsDistinct(database.tables) {
        RowOfDigest(database.tables, digest(token), capability.capabilityId);
      }
      match Judge(capability.Snapshot(), hostId, sessionId, runId, now)
      case Err(refusal) => r := Err(refusal);
      case Ok(_) => r := Ok(capability);
    }

    method Begin(capability: Capability, call: string, now: real) returns (outcome: BeginOutcome)
      requires Linked() && capability.NamesRow(database.tables)
      modifies database, capability`queryCount
      ensures outcome == BeginOutcomeOf(old(database.tables), capability.capabilityId, capability.budget, call, now)
      ensures database.tables == BeginTables(old(database.tables), capability.capabilityId, capability.budget, call, now)
      ensures capability.queryCount ==
        if outcome.Admitted? then database.tables.capabilities[capability.capabilityId].queryCount else old(capability.queryCount)
      ensures Linked() && (old(Coherent()) ==> Coherent())
    {
      hide Purge, ActiveKeys, WindowCount, WindowStart;
      var id := capability.capabilityId;
      var requests := Purge(database.tables.requests, id, now);
      if (id, call) in requests {
        match requests[(id, call)] {
          case Completed(response) =>
            database.tables := database.tables.(requests := requests);
            return Replayed(response);
          case InProgress(_) =>
            return Denied(DuplicateInFlight);
        }
      }
      var requestCount := WindowCount(database.tables.windows, id, WindowStart(now));
      if requestCount >= capability.budget.maxRequestsPerMinute {
        return Denied(RateExceeded);
      }
      var row := database.tables.capabilities[id];
      if row.queryCount >= capability.budget.maxQueries {
        return Denied(BudgetExhausted);
      }
      if |ActiveKeys(requests, id)| >= capability.budget.maxConcurrency {
        return Denied(ConcurrencyExceeded);
      }
      Reserve(capability, call, now);
      outcome := Admitted;
    }

    /** The writes of an admission, in the transaction that decided it. */
    method Reserve(capability: Capability, call: string, now: real)
      requires Linked() && capability.NamesRow(database.tables)
      requires BeginOutcomeOf(database.tables, capability.capabilityId, capability.budget, call, now).Admitted?
      modifies database, capability`queryCount
      ensures database.tables == BeginTables(old(database.tables), capability.capabilityId, capability.budget, call, now)
      ensures capability.queryCount == database.tables.capabilities[capability.capabilityId].queryCount
      ensures Linked() && (old(Coherent()) ==> Coherent())
    {
      hide Purge, ActiveKeys, WindowCount, LeaseSeconds, WindowStart;
      var id := capability.capabilityId;
      var row := database.tables.capabilities[id];
      var window := WindowStart(now);
      capability.queryCount := row.queryCount + 1;
      database.tables := Tables(
        database.tables.capabilities[id := row.(queryCount := capability.queryCount)],
        Purge(database.tables.requests, id, now)[(id, call) := InProgress(now + LeaseSeconds(capability.budget) as real)],
        database.tables.windows[(id, window) := WindowCount(database.tables.windows, id, window) + 1]);
    }

    method Finish(capability: Capability, call: string, response: Response)
      requires Linked() && capability.NamesRow(database.tables)
      modifies database, capability`deduplicated
      ensures database.tables == FinishTables(old(database.tables), capability.capabilityId, call, response)
      ensures capability.deduplicated == old(capability.deduplicated)[call := response]
      ensures Linked() && (old(Coherent()) ==> Coherent())
    {
      capability.deduplicated := capability.deduplicated[call := response];
      database.tables := database.tables.(requests := database.tables.requests[(capability.capabilityId, call) := Completed(response)]);
    }

    method Abort(capability: Capability, call: string)
      requires Linked() && capability.NamesRow(database.tables)
      modifies database
      ensures database.tables == AbortTables(old(database.tables), capability.capabilityId, call)
      ensures Linked() && (old(Coherent()) ==> Coherent())
    {
      var key := (capability.capabilityId, call);
      if key in database.tables.requests && database.tables.requests[key].InProgress? {
        database.tables := database.tables.(requests := database.tables.requests - {key});
      }
    }

    /** The cached projection, hydrated from its row; None models the KeyError of an unknown id. */
    method Get(id: string) returns (found: Option<Capability>)
      requires Linked()
      modifies this
      ensures found.Some? <==> id in database.tables.capabilities
      ensures found.Some? ==> id in capabilities && capabilities == old(capabilities)[id := found.value]
      ensures found.Some? && id in old(capabilities) ==> found.value == old(capabilities)[id]
      ensures found.Some? && id !in old(capabilities) ==> fresh(found.value) && found.value.Snapshot() == database.tables.capabilities[id]
      ensures found.None? ==> capabilities == old(capabilities)
      ensures byDigest == old(byDigest)
      ensures Linked() && (old(Coherent()) ==> Coherent())
    {
      if id in capabilities {
        return Some(capabilities[id]);
      }
      if id !in database.tables.capabilities {
        return None;
      }
      var hydrated := new Capability.FromRow(id, database.tables.capabilities[id]);
      capabilities := capabilities[id := hydrated];
      found := Some(hydrated);
    }

    /** Writes the revocation time to a cached projection and to its row. */
    method StampRevoked(capability: Capability, now: real)
      requires Linked() && capability.capabilityId in capabilities && capabilities[capability.capabilityId] == capability
      modifies database, capability`revokedAt
      ensures database.tables == RevokeTables(old(database.tables), capability.capabilityId, now)
      ensures capability.revokedAt == Some(now)
      ensures Linked() && (old(Coherent()) ==> Coherent())
    {
      var id := capability.capabilityId;
      capability.revokedAt := Some(now);
      database.tables := database.tables.(capabilities :=
        database.tables.capabilities[id := database.tables.capabilities[id].(revokedAt := capability.revokedAt)]);
    }

    method Revoke(id: string, now: real) returns (found: Option<Capability>)
      requires Linked()
      modifies this, database, capabilities.Values
      ensures database.tables == RevokeTables(old(database.tables), id, now)
      ensures found.Some? <==> id in old(database.tables.capabilities)
      ensures found.Some? ==> found.value.revokedAt == Some(now) && found.value.NamesRow(database.tables) && found.value.capabilityId == id
      ensures Linked() && (old(Coherent()) ==> Coherent())
    {
      found := Get(id);
      if found.Some? {
        StampRevoked(found.value, now);
      }
    }

    /** One turn of the loop in `RevokeScope`: revoke the row and replace the cached projection. */
    method RevokeRow(id: string, at: real)
      requires Linked() && id in database.tables.capabilities
      modifies this, database
      ensures database.tables == RevokeTables(old(database.tables), id, at)
      ensures Linked() && (old(Coherent()) ==> Coherent())
    {
      var capability := new Capability.FromRow(id, database.tables.capabilities[id]);
      capabilities := capabilities[id := capability];
      StampRevoked(capability, at);
    }

    /** The loop of `RevokeScope` over the selected rows. */
    method RevokeMatching(scope: Scope, stamp: string -> real) returns (revoked: seq<string>)
      requires Linked()
      modifies this, database
      ensures database.tables == RevokedSoFar(old(database.tables), scope, stamp, {})
      ensures forall id :: id in revoked <==> id in UnrevokedInScope(old(database.tables), scope)
      ensures forall i, j :: 0 <= i < j < |revoked| ==> revoked[i] != revoked[j]
      ensures Linked() && (old(Coherent()) ==> Coherent())
    {
      var before := database.tables;
      var rows := before.capabilities;
      var remaining := rows.Keys;
      revoked := [];
      ghost var wasCoherent := Coherent();
      RevokedSoFarEnd(before, scope, stamp);
      while remaining != {}
        invariant remaining <= rows.Keys
        invariant database.tables == RevokedSoFar(before, scope, stamp, remaining)
        invariant forall id :: id in revoked <==> id in rows && id !in remaining && RevokedByScope(rows[id], scope)
        invariant forall i, j :: 0 <= i < j < |revoked| ==> revoked[i] != revoked[j]
        invariant Linked() && (wasCoherent ==> Coherent())
        decreases remaining
      {
        var id :| id in remaining;
        RevokedSoFarStep(before, scope, stamp, remaining, id);
        remaining := remaining - {id};
        if RevokedByScope(rows[id], scope) {
          RevokeRow(id, stamp(id));
          revoked := revoked + [id];
        }
      }
    }

    method RevokeScope(scope: Scope, stamp: string -> real) returns (r: Result<seq<string>, seq<ScopeField>>)
      requires Linked()
      modifies this, database
      ensures r.Err? <==> MissingFields(scope) != []
      ensures r.Err? ==> r.error == MissingFields(scope) && database.tables == old(database.tables) && capabilities == old(capabilities)
      ensures r.Ok? ==> database.tables == RevokeScopeTables(old(database.tables), scope, stamp)
      ensures r.Ok? ==> forall i, j :: 0 <= i < j < |r.value| ==> r.value[i] != r.value[j]
      ensures r.Ok? ==> forall id :: id in r.value <==> id in UnrevokedInScope(old(database.tables), scope)
      ensures Linked() && (old(Coherent()) ==> Coherent())
    {
      if MissingFields(scope) != [] {
        return Err(MissingFields(scope));
      }
      RevokedSoFarEnd(database.tables, scope, stamp);
      var revoked := RevokeMatching(scope, stamp);
      r := Ok(revoked);
    }

    /** The earliest issued live capability of a scope, as a projection that is not cached. */
    method LiveScopeCapability(scope: Scope, now: real) returns (r: Result<Option<Capability>, seq<ScopeField>>)
      ensures r.Err? <==> MissingFields(scope) != []
      ensures r.Err? ==> r.error == MissingFields(scope)
      ensures r.Ok? ==> (r.value.None? <==> LiveInScope(database.tables, scope, now) == {})
      ensures r.Ok? && r.value.Some? ==>
        && var c := r.value.value;
        && c.capabilityId in LiveInScope(database.tables, scope, now)
        && fresh(c) && c.Snapshot() == database.tables.capabilities[c.capabilityId]
        && (forall id :: id in LiveInScope(database.tables, scope, now) ==> c.issuedAt <= database.tables.capabilities[id].issuedAt)
    {
      if MissingFields(scope) != [] {
        return Err(MissingFields(scope));
      }
      var rows := database.tables.capabilities;
      var remaining := rows.Keys;
      var best: Option<string> := None;
      while remaining != {}
        invariant remaining <= rows.Keys
        invariant best.None? ==> LiveInScope(database.tables, scope, now) <= remaining
        invariant best.Some? ==> best.value in LiveInScope(database.tables, scope, now)
        invariant best.Some? ==>
          forall id :: id in LiveInScope(database.tables, scope, now) && id !in remaining ==> rows[best.value].issuedAt <= rows[id].issuedAt
        decreases remaining
      {
        var id :| id in remaining;
        remaining := remaining - {id};
        if rows[id].revokedAt.None? && rows[id].expiresAt > now && rows[id].budget.scope == scope {
          if best.None? || rows[id].issuedAt < rows[best.value].issuedAt {
            best := Some(id);
          }
        }
      }
      if best.None? {
        return Ok(None);
      }
      var live := new Capability.FromRow(best.value, rows[best.value]);
      r := Ok(Some(live));
    }

    method Acknowledge(id: string, call: string, state: string) returns (found: Option<Response>)
      requires Linked()
      modifies database, capabilities.Values`deduplicated
      ensures database.tables == AcknowledgeTables(old(database.tables), id, call, state)
      ensures found.Some? <==> (id, call) in old(database.tables.requests) && old(database.tables.requests)[(id, call)].Completed?
      ensures found.Some? ==> found.value == old(database.tables.requests)[(id, call)].response["deliveryState" := state]
      ensures found.Some? ==> database.tables.requests[(id, call)] == Completed(found.value)
      ensures found.Some? && id in capabilities ==> call in capabilities[id].deduplicated && capabilities[id].deduplicated[call] == found.value
      ensures Linked() && (old(Coherent()) ==> Coherent())
    {
      if (id, call) !in database.tables.requests || !database.tables.requests[(id, call)].Completed? {
        return None;
      }
      var response := database.tables.requests[(id, call)].response;
      response := response["deliveryState" := state];
      database.tables := database.tables.(requests := database.tables.requests[(id, call) := Completed(response)]);
      if id in capabilities {
        capabilities[id].deduplicated := capabilities[id].deduplicated[call := response];
      }
      found := Some(response);
    }

    /** `statusNow` and `now` are the two clock readings the projection takes. */
    method GetStatus(id: string, statusNow: real, now: real) returns (status: Option<Status>)
      requires Linked()
      modifies this
      ensures status.Some? <==> id in database.tables.capabilities
      ensures status.Some? ==>
        var row := if id in old(capabilities) then old(capabilities[id].Snapshot()) else database.tables.capabilities[id];
        && status.value.state == LifecycleOf(row, statusNow)
        && status.value.queryCount == row.queryCount
        && status.value.activeRequests == |LiveReservations(database.tables.requests, id, now)|
        && status.value.requestsInCurrentMinute == WindowCount(database.tables.windows, id, WindowStart(now))
      ensures status.Some? && old(Coherent()) ==>
        && status.value.state == LifecycleOf(database.tables.capabilities[id], statusNow)
        && status.value.queryCount <= database.tables.capabilities[id].queryCount
      ensures status.Some? && TablesInvariant(database.tables) ==>
        && status.value.activeRequests <= Pos(database.tables.capabilities[id].budget.maxConcurrency)
        && status.value.requestsInCurrentMinute <= Pos(database.tables.capabilities[id].budget.maxRequestsPerMinute)
      ensures Linked() && (old(Coherent()) ==> Coherent())
    {
      var found := Get(id);
      if found.None? {
        return None;
      }
      var capability := found.value;
      var requests := database.tables.requests;
      var live := LiveReservations(requests, id, now);
      SubsetCardinality(live, ActiveKeys(requests, id));
      if TablesInvariant(database.tables) {
        assert WithinBudget(database.tables, id);
      }
      status := Some(Status(
        LifecycleOf(capability.Snapshot(), statusNow),
        capability.queryCount,
        |live|,
        WindowCount(database.tables.windows, id, WindowStart(now))));
    }
  }

  /** What `Linked` relies on survives every step of every other registry. */
  lemma OtherRegistriesKeepLinks(t: Tables, step: Step, projection: CapabilityRow, id: string)
    requires id in t.capabilities && SameIdentity(projection, t.capabilities[id])
    ensures id in Apply(t, step).capabilities && SameIdentity(projection, Apply(t, step).capabilities[id])
  {
    RowsPersist(t, step, id);
  }

  /** A registry issued a capability, and another one on the same database revoked it. */
  method RevokeElsewhere(digest: string -> string, budget: Budget, lifetime: int, now: real, token: string, id: string) returns (first: Registry)
    ensures fresh(first) && first.Linked() && first.digest == digest && id in first.capabilities && id in first.database.tables.capabilities
    ensures first.database.tables.capabilities[id].tokenDigest == digest(token)
    ensures first.database.tables.capabilities[id].revokedAt.Some?
    ensures first.CachedFor(digest(token)) == Some(id)
    ensures first.capabilities[id].Snapshot() == CapabilityRow(digest(token), budget, now, now + lifetime as real, None, 0)
  {
    var database := new Database();
    first := new Registry(database, digest);
    var second := new Registry(database, digest);
    var capability := first.Issue(budget, lifetime, now, token, id);
    var revoked := second.Revoke(id, now);
    assert first.capabilities == map[id := capability];
  }

  /** Its cached projection still admits the token. */
  method StaleProjectionAdmits(digest: string -> string, budget: Budget, lifetime: int, now: real, token: string, id: string)
    returns (first: Registry, r: Result<Capability, Refusal>)
    requires 0 < lifetime
    ensures fresh(first) && first.Linked()
    ensures id in first.database.tables.capabilities && first.database.tables.capabilities[id].tokenDigest == digest(token)
    ensures first.database.tables.capabilities[id].revokedAt.Some?
    ensures r.Ok? && r.value.capabilityId == id
  {
    first := RevokeElsewhere(digest, budget, lifetime, now, token, id);
    r := first.Resolve(token, budget.scope.hostId, budget.scope.sessionId, budget.scope.runId, now);
  }
}
