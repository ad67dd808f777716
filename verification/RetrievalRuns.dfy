/**
  Histories of the shared tables: what any interleaving of registry calls can and cannot do.
 */
module RetrievalRuns {
  import opened Outcomes
  import opened RetrievalTables

  ghost predicate Commits(run: seq<Step>, i: nat)
    requires i < |run|
  {
    run[i].Begin? && !RowOutcome(After(run[..i]), run[i].id, run[i].call, run[i].now).Denied?
  }

  /** Call `i` of the run is a `begin` that reserved its tool call. */
  ghost predicate Admits(run: seq<Step>, i: nat)
    requires i < |run|
  {
    run[i].Begin? && RowOutcome(After(run[..i]), run[i].id, run[i].call, run[i].now).Admitted?
  }

  /** When the reservation made by an admitted call lapses. */
  ghost function LeaseEnd(run: seq<Step>, i: nat): real
    requires i < |run| && Admits(run, i)
  {
    run[i].now + LeaseSeconds(After(run[..i]).capabilities[run[i].id].budget) as real
  }

  lemma AfterNext(run: seq<Step>, i: nat)
    requires i < |run|
    ensures After(run[..i + 1]) == Apply(After(run[..i]), run[i])
  {
    assert run[..i + 1][..i] == run[..i];
  }

  // ------------------------------------------------------- exactly-once calls

  /** Step `k` ends the reservation of a tool call: an abort, or a committed begin past its lease. */
  ghost predicate Releases(run: seq<Step>, k: nat, id: string, call: string, lease: real)
    requires k < |run|
  {
    || (run[k].Abort? && run[k].id == id && run[k].call == call)
    || (Commits(run, k) && run[k].id == id && lease <= run[k].now)
  }

  /** The row of a tool call that holds a reservation with this lease, or is already completed. */
  ghost predicate Held(t: Tables, id: string, call: string, lease: real) {
    && (id, call) in t.requests
    && (t.requests[(id, call)].Completed? || t.requests[(id, call)] == InProgress(lease))
  }

  lemma StepKeepsReservation(t: Tables, step: Step, id: string, call: string, lease: real)
    requires Held(t, id, call, lease)
    requires !(step.Abort? && step.id == id && step.call == call)
    requires !(step.Begin? && step.id == id && lease <= step.now && !RowOutcome(t, id, step.call, step.now).Denied?)
    ensures Held(Apply(t, step), id, call, lease)
  {
    if step.Begin? && step.id in t.capabilities {
      var kept := Purge(t.requests, step.id, step.now);
      if !RowOutcome(t, step.id, step.call, step.now).Denied? {
        assert (id, call) in kept && kept[(id, call)] == t.requests[(id, call)];
      }
    }
  }

  lemma AdmittedIsHeld(run: seq<Step>, i: nat)
    requires i < |run| && Admits(run, i)
    ensures Held(After(run[..i + 1]), run[i].id, run[i].call, LeaseEnd(run, i))
  {
    hide After;
    AfterNext(run, i);
  }

  /** Until released, an admitted call stays reserved under its own lease or becomes completed. */
  lemma {:induction false} ReservationPersists(run: seq<Step>, i: nat, m: nat)
    requires i < m <= |run| && Admits(run, i)
    requires forall k :: i < k < m ==> !Releases(run, k, run[i].id, run[i].call, LeaseEnd(run, i))
    ensures Held(After(run[..m]), run[i].id, run[i].call, LeaseEnd(run, i))
  {
    hide After, Apply, Held, RowOutcome;
    AfterNext(run, m - 1);
    if m == i + 1 {
      AdmittedIsHeld(run, i);
    } else {
      ReservationPersists(run, i, m - 1);
      assert !Releases(run, m - 1, run[i].id, run[i].call, LeaseEnd(run, i));
      StepKeepsReservation(After(run[..m - 1]), run[m - 1], run[i].id, run[i].call, LeaseEnd(run, i));
    }
  }

  /** A held call is not admitted by a begin that reads the clock before the lease ends. */
  lemma HeldIsNotAdmitted(t: Tables, id: string, call: string, lease: real, now: real)
    requires Held(t, id, call, lease) && now < lease
    ensures !RowOutcome(t, id, call, now).Admitted?
  {
    assert (id, call) in Purge(t.requests, id, now);
  }

  /** Two admissions of one tool call are separated by an abort of it or by its lease running out. */
  lemma AdmittedOnce(run: seq<Step>, i: nat, j: nat)
    requires i < j < |run| && Admits(run, i) && Admits(run, j)
    requires run[j].id == run[i].id && run[j].call == run[i].call
    ensures exists k :: i < k <= j && Releases(run, k, run[i].id, run[i].call, LeaseEnd(run, i))
  {
    var lease := LeaseEnd(run, i);
    if !Releases(run, j, run[i].id, run[i].call, lease) {
      if forall k :: i < k < j ==> !Releases(run, k, run[i].id, run[i].call, lease) {
        ReservationPersists(run, i, j);
        HeldIsNotAdmitted(After(run[..j]), run[i].id, run[i].call, lease, run[j].now);
      }
    }
  }

  /** The terminal response of a tool call as the calls alone determine it: the last `finish`, amended by later acknowledgements. */
  ghost function PublishedResponse(run: seq<Step>, id: string, call: string): Option<Response> {
    if run == [] then None else
      var earlier := PublishedResponse(run[..|run| - 1], id, call);
      match run[|run| - 1]
      case Finish(i, c, response) => if i == id && c == call then Some(response) else earlier
      case Acknowledge(i, c, state) =>
        if i == id && c == call && earlier.Some? then Some(WithDelivery(earlier.value, state)) else earlier
      case _ => earlier
  }

  function StoredResponse(t: Tables, id: string, call: string): Option<Response> {
    if (id, call) in t.requests && t.requests[(id, call)].Completed? then Some(t.requests[(id, call)].response) else None
  }

  lemma CompletedStep(t: Tables, step: Step, id: string, call: string)
    ensures StoredResponse(Apply(t, step), id, call) ==
      match step
      case Finish(i, c, response) => if i == id && c == call then Some(response) else StoredResponse(t, id, call)
      case Acknowledge(i, c, state) =>
        if i == id && c == call && StoredResponse(t, id, call).Some?
        then Some(WithDelivery(StoredResponse(t, id, call).value, state)) else StoredResponse(t, id, call)
      case _ => StoredResponse(t, id, call)
  {
    hide ActiveKeys, WindowCount, WindowStart, LeaseSeconds;
  }

  /** A row is completed exactly when a response was published, and holds that very response. */
  lemma {:induction false} CompletedIsPublished(run: seq<Step>, id: string, call: string)
    ensures var rows := After(run).requests;
      PublishedResponse(run, id, call)
      == if (id, call) in rows && rows[(id, call)].Completed? then Some(rows[(id, call)].response) else None
  {
    hide Apply;
    if run != [] {
      CompletedIsPublished(run[..|run| - 1], id, call);
      CompletedStep(After(run[..|run| - 1]), run[|run| - 1], id, call);
    }
  }

  lemma {:induction false} PublishedStays(run: seq<Step>, i: nat, id: string, call: string)
    requires i <= |run| && PublishedResponse(run[..i], id, call).Some?
    ensures PublishedResponse(run, id, call).Some?
  {
    if i < |run| {
      assert run[..|run| - 1][..i] == run[..i];
      PublishedStays(run[..|run| - 1], i, id, call);
    } else {
      assert run[..i] == run;
    }
  }

  /** Once finished, a tool call is never executed again: every later begin replays what was published and charges nothing. */
  lemma FinishedNeverReadmitted(run: seq<Step>, i: nat, j: nat)
    requires i < j < |run| && run[i].Finish? && run[j].Begin?
    requires run[j].id == run[i].id && run[j].call == run[i].call
    requires run[j].id in After(run[..j]).capabilities
    ensures var t := After(run[..j]);
      var published := PublishedResponse(run[..j], run[j].id, run[j].call);
      && published.Some?
      && RowOutcome(t, run[j].id, run[j].call, run[j].now) == Replayed(published.value)
      && Apply(t, run[j]).capabilities == t.capabilities
      && Apply(t, run[j]).windows == t.windows
  {
    assert run[..j][..i + 1] == run[..i + 1];
    assert run[..i + 1][..i] == run[..i];
    PublishedStays(run[..j], i + 1, run[j].id, run[j].call);
    CompletedIsPublished(run[..j], run[j].id, run[j].call);
  }

  /** Only `finish` and `acknowledge_delivery` of the tool call itself change its published response. */
  lemma OnlyPublishersChangeResponse(run: seq<Step>, step: Step, id: string, call: string)
    requires !((step.Finish? || step.Acknowledge?) && step.id == id && step.call == call)
    ensures PublishedResponse(run + [step], id, call) == PublishedResponse(run, id, call)
  {
    assert (run + [step])[..|run|] == run;
  }

  // ------------------------------------------------------------ rate windows

  ghost predicate AdmitsFor(run: seq<Step>, i: nat, id: string)
    requires i < |run|
  {
    Admits(run, i) && run[i].id == id
  }

  /** Admitted calls of a capability with a clock reading in the half-open interval [lo, hi). */
  ghost function AdmittedBetween(run: seq<Step>, id: string, lo: real, hi: real): nat {
    if run == [] then 0 else
      var n := |run| - 1;
      AdmittedBetween(run[..n], id, lo, hi) + (if AdmitsFor(run, n, id) && lo <= run[n].now < hi then 1 else 0)
  }

  ghost function AdmittedInWindow(run: seq<Step>, id: string, window: int): nat {
    if run == [] then 0 else
      var n := |run| - 1;
      AdmittedInWindow(run[..n], id, window) + (if AdmitsFor(run, n, id) && WindowStart(run[n].now) == window then 1 else 0)
  }

  ghost function AdmittedEver(run: seq<Step>, id: string): nat {
    if run == [] then 0 else
      var n := |run| - 1;
      AdmittedEver(run[..n], id) + (if AdmitsFor(run, n, id) then 1 else 0)
  }

  /** The counters of a capability move only when it is admitted. */
  lemma CountersStep(t: Tables, step: Step, id: string, window: int)
    ensures var admitted := step.Begin? && step.id == id && RowOutcome(t, step.id, step.call, step.now).Admitted?;
      var t' := Apply(t, step);
      && WindowCount(t'.windows, id, window) == WindowCount(t.windows, id, window) + (if admitted && WindowStart(step.now) == window then 1 else 0)
      && QueryCount(t', id) == QueryCount(t, id) + (if admitted then 1 else 0)
  {
    hide Purge, ActiveKeys, WindowStart, LeaseSeconds;
  }

  function QueryCount(t: Tables, id: string): int {
    if id in t.capabilities then t.capabilities[id].queryCount else 0
  }

  lemma NothingCounted(id: string, window: int)
    ensures WindowCount(EMPTY.windows, id, window) == QueryCount(EMPTY, id) == 0
  {
  }

  /** The stored counters are exactly the admissions of the history; aborts refund nothing. */
  lemma {:induction false} CountersAreHistory(run: seq<Step>, id: string, window: int)
    ensures var t := After(run);
      && WindowCount(t.windows, id, window) == AdmittedInWindow(run, id, window)
      && QueryCount(t, id) == AdmittedEver(run, id)
  {
    hide Apply, WindowCount, RowOutcome, QueryCount;
    if run == [] {
      NothingCounted(id, window);
    } else {
      var earlier := run[..|run| - 1];
      CountersAreHistory(earlier, id, window);
      CountersStep(After(earlier), run[|run| - 1], id, window);
    }
  }

  ghost function AdmittedInWindows(run: seq<Step>, id: string, first: int, n: nat): nat {
    if n == 0 then 0 else AdmittedInWindows(run, id, first, n - 1) + AdmittedInWindow(run, id, first + 60 * (n - 1))
  }

  lemma {:induction false} WindowsGrow(run: seq<Step>, id: string, first: int, n: nat)
    requires run != []
    ensures var last := run[|run| - 1];
      AdmittedInWindows(run, id, first, n)
      == AdmittedInWindows(run[..|run| - 1], id, first, n)
       + (if AdmitsFor(run, |run| - 1, id) && 0 <= WindowStart(last.now) - first < 60 * n && (WindowStart(last.now) - first) % 60 == 0 then 1 else 0)
  {
    if n > 0 {
      WindowsGrow(run, id, first, n - 1);
    }
  }

  /** An interval of 60*k seconds meets at most k + 1 windows. */
  lemma IntervalMeetsWindows(a: real, k: nat, now: real)
    requires a <= now < a + 60.0 * k as real
    ensures 0 <= WindowStart(now) - WindowStart(a) < 60 * (k + 1)
    ensures (WindowStart(now) - WindowStart(a)) % 60 == 0
  {
    var x, y := a / 60.0, now / 60.0;
    assert x <= y < x + k as real;
    assert x.Floor <= y.Floor <= x.Floor + k;
    assert WindowStart(now) - WindowStart(a) == 60 * (y.Floor - x.Floor);
  }

  lemma {:induction false} IntervalWithinWindows(run: seq<Step>, id: string, a: real, k: nat)
    ensures AdmittedBetween(run, id, a, a + 60.0 * k as real) <= AdmittedInWindows(run, id, WindowStart(a), k + 1)
  {
    if run != [] {
      var n := |run| - 1;
      IntervalWithinWindows(run[..n], id, a, k);
      WindowsGrow(run, id, WindowStart(a), k + 1);
      if AdmitsFor(run, n, id) && a <= run[n].now < a + 60.0 * k as real {
        IntervalMeetsWindows(a, k, run[n].now);
      }
    }
  }

  lemma HistoryWithinBudget(run: seq<Step>, id: string, window: int)
    requires id in After(run).capabilities
    ensures AdmittedInWindow(run, id, window) <= Pos(After(run).capabilities[id].budget.maxRequestsPerMinute)
    ensures AdmittedEver(run, id) <= Pos(After(run).capabilities[id].budget.maxQueries)
  {
    CountersAreHistory(run, id, window);
    ReachableWithinBudget(run);
    assert WithinBudget(After(run), id);
  }

  lemma {:induction false} WindowsBounded(run: seq<Step>, id: string, first: int, n: nat, limit: nat)
    requires forall window :: AdmittedInWindow(run, id, window) <= limit
    ensures AdmittedInWindows(run, id, first, n) <= n * limit
  {
    if n > 0 {
      WindowsBounded(run, id, first, n - 1, limit);
      assert n * limit == (n - 1) * limit + limit;
    }
  }

  /**
    Fixed windows bound every sliding interval: however the clock readings move, at most
    (k + 1) * max_requests_per_minute calls are admitted in any 60*k seconds, and at most
    max_queries over the whole run.
   */
  lemma SlidingIntervalBounded(run: seq<Step>, id: string, a: real, k: nat)
    requires id in After(run).capabilities
    ensures var budget := After(run).capabilities[id].budget;
      && AdmittedBetween(run, id, a, a + 60.0 * k as real) <= (k + 1) * Pos(budget.maxRequestsPerMinute)
      && AdmittedEver(run, id) <= Pos(budget.maxQueries)
  {
    var limit := Pos(After(run).capabilities[id].budget.maxRequestsPerMinute);
    forall window
      ensures AdmittedInWindow(run, id, window) <= limit && AdmittedEver(run, id) <= Pos(After(run).capabilities[id].budget.maxQueries)
    {
      HistoryWithinBudget(run, id, window);
    }
    IntervalWithinWindows(run, id, a, k);
    WindowsBounded(run, id, WindowStart(a), k + 1, limit);
    HistoryWithinBudget(run, id, 0);
  }

  // -------------------------------------------------------- lifecycle scopes

  /** What a row keeps for ever, whoever writes to the tables. */
  ghost predicate SameIdentity(a: CapabilityRow, b: CapabilityRow) {
    a.tokenDigest == b.tokenDigest && a.budget == b.budget && a.issuedAt == b.issuedAt && a.expiresAt == b.expiresAt
  }

  /** The same tables but for who is revoked, and when. */
  ghost predicate SameButRevocation(t: Tables, u: Tables) {
    && t.requests == u.requests && t.windows == u.windows
    && t.capabilities.Keys == u.capabilities.Keys
    && (forall id :: id in t.capabilities ==> u.capabilities[id] == t.capabilities[id].(revokedAt := u.capabilities[id].revokedAt))
  }

  /** `begin` never looks at revocation. */
  lemma RevocationDecidesNoBegin(t: Tables, u: Tables, id: string, call: string, now: real)
    requires SameButRevocation(t, u)
    ensures RowOutcome(t, id, call, now) == RowOutcome(u, id, call, now)
  {
    hide Purge, ActiveKeys, WindowCount, WindowStart;
  }

  lemma RevocationStaysInvisible(t: Tables, u: Tables, step: Step)
    requires SameButRevocation(t, u)
    ensures SameButRevocation(Apply(t, step), Apply(u, step))
  {
    match step
    case Issue(id, digest, budget, now, lifetime) => IssueIgnoresRevocation(t, u, id, digest, budget, now, lifetime);
    case Begin(id, call, now) => BeginIgnoresRevocation(t, u, id, call, now);
    case _ => OthersIgnoreRevocation(t, u, step);
  }

  lemma IssueIgnoresRevocation(t: Tables, u: Tables, id: string, digest: string, budget: Budget, now: real, lifetime: int)
    requires SameButRevocation(t, u)
    ensures SameButRevocation(IssueTables(t, id, digest, budget, now, lifetime), IssueTables(u, id, digest, budget, now, lifetime))
  {
    assert forall other :: other in t.capabilities ==> t.capabilities[other].tokenDigest == u.capabilities[other].tokenDigest;
  }

  lemma BeginIgnoresRevocation(t: Tables, u: Tables, id: string, call: string, now: real)
    requires SameButRevocation(t, u)
    ensures SameButRevocation(Apply(t, Begin(id, call, now)), Apply(u, Begin(id, call, now)))
  {
    hide Purge, ActiveKeys, WindowCount, WindowStart, LeaseSeconds;
  }

  lemma OthersIgnoreRevocation(t: Tables, u: Tables, step: Step)
    requires SameButRevocation(t, u) && !step.Issue? && !step.Begin?
    ensures SameButRevocation(Apply(t, step), Apply(u, step))
  {
    hide BeginTables, IssueTables;
  }

  lemma RevocationOnlyRevokes(t: Tables, step: Step)
    requires step.Revoke? || step.RevokeScope?
    ensures SameButRevocation(t, Apply(t, step))
  {
  }

  /** A revocation put anywhere into a run changes nothing that follows but who is revoked. */
  lemma {:induction false} RunsDifferInRevocation(before: seq<Step>, revocation: Step, later: seq<Step>)
    requires revocation.Revoke? || revocation.RevokeScope?
    ensures SameButRevocation(After(before + later), After(before + [revocation] + later))
  {
    hide Apply, SameButRevocation;
    var n := |later| - 1;
    if later == [] {
      assert before + later == before && before + [revocation] + later == before + [revocation];
      assert (before + [revocation])[..|before|] == before;
      RevocationOnlyRevokes(After(before), revocation);
    } else {
      RunsDifferInRevocation(before, revocation, later[..n]);
      assert (before + later)[..|before + later| - 1] == before + later[..n];
      assert (before + [revocation] + later)[..|before + [revocation] + later| - 1] == before + [revocation] + later[..n];
      RevocationStaysInvisible(After(before + later[..n]), After(before + [revocation] + later[..n]), later[n]);
    }
  }

  /** So no revocation changes the outcome of any later `begin`. */
  lemma RevocationChangesNoOutcome(before: seq<Step>, revocation: Step, later: seq<Step>, id: string, call: string, now: real)
    requires revocation.Revoke? || revocation.RevokeScope?
    ensures RowOutcome(After(before + [revocation] + later), id, call, now) == RowOutcome(After(before + later), id, call, now)
  {
    RunsDifferInRevocation(before, revocation, later);
    RevocationDecidesNoBegin(After(before + later), After(before + [revocation] + later), id, call, now);
  }

  /** A capability that was revoked still admits a tool call of whoever holds it. */
  lemma AdmittedAfterRevocation(id: string, digest: string, budget: Budget, now: real, lifetime: int, call: string) returns (run: seq<Step>)
    requires budget.maxQueries > 0 && budget.maxConcurrency > 0 && budget.maxRequestsPerMinute > 0
    ensures |run| == 3 && run[1] == Revoke(id, now) && run[2] == Begin(id, call, now)
    ensures id in After(run[..2]).capabilities && After(run[..2]).capabilities[id].revokedAt.Some?
    ensures Admits(run, 2)
  {
    run := [Issue(id, digest, budget, now, lifetime), Revoke(id, now), Begin(id, call, now)];
    assert run[..0] == [];
    AfterNext(run, 0);
    AfterNext(run, 1);
    assert After(run[..2]).requests == map[] && After(run[..2]).windows == map[];
    assert ActiveKeys(map[], id) == {};
  }

  lemma RowsPersist(t: Tables, step: Step, id: string)
    requires id in t.capabilities
    ensures id in Apply(t, step).capabilities
    ensures SameIdentity(t.capabilities[id], Apply(t, step).capabilities[id])
    ensures t.capabilities[id].revokedAt.Some? ==> Apply(t, step).capabilities[id].revokedAt.Some?
    ensures t.capabilities[id].queryCount <= Apply(t, step).capabilities[id].queryCount
  {
  }

  /** The rows `live_scope_capability` chooses from. */
  ghost function LiveInScope(t: Tables, scope: Scope, now: real): set<string> {
    set id | id in t.capabilities && t.capabilities[id].budget.scope == scope && t.capabilities[id].revokedAt.None? && t.capabilities[id].expiresAt > now
  }

  ghost function UnrevokedInScope(t: Tables, scope: Scope): set<string> {
    set id | id in t.capabilities && RevokedByScope(t.capabilities[id], scope)
  }

  /** A scope revocation revokes exactly the unrevoked capabilities of that four-part scope. */
  lemma RevokeScopeExact(t: Tables, scope: Scope, stamp: string -> real, id: string)
    requires id in t.capabilities
    ensures var t' := RevokeScopeTables(t, scope, stamp);
      && (id in UnrevokedInScope(t, scope) <==> t'.capabilities[id] != t.capabilities[id])
      && (t'.capabilities[id].revokedAt.None? <==> t.capabilities[id].revokedAt.None? && t.capabilities[id].budget.scope != scope)
      && UnrevokedInScope(t', scope) == {}
  {
  }

  lemma {:induction false} ScopeStaysRevoked(run: seq<Step>, i: nat, scope: Scope)
    requires i < |run| && run[i].RevokeScope? && run[i].scope == scope
    requires forall k :: i < k < |run| && run[k].Issue? ==> run[k].budget.scope != scope
    ensures UnrevokedInScope(After(run), scope) == {}
  {
    hide Apply, UnrevokedInScope;
    var n := |run| - 1;
    if i == n {
      NothingUnrevoked(After(run[..n]), scope, run[n].stamp);
    } else {
      assert run[..n][i] == run[i];
      ScopeStaysRevoked(run[..n], i, scope);
      NoneUnrevokedStep(After(run[..n]), run[n], scope);
    }
  }

  lemma NothingUnrevoked(t: Tables, scope: Scope, stamp: string -> real)
    ensures UnrevokedInScope(Apply(t, RevokeScope(scope, stamp)), scope) == {}
  {
  }

  lemma NoneUnrevokedStep(t: Tables, step: Step, scope: Scope)
    requires UnrevokedInScope(t, scope) == {} && (step.Issue? ==> step.budget.scope != scope)
    ensures UnrevokedInScope(Apply(t, step), scope) == {}
  {
    hide BeginTables, Purge;
    forall id | id in Apply(t, step).capabilities
      ensures id !in UnrevokedInScope(Apply(t, step), scope)
    {
      if id in t.capabilities {
        assert id !in UnrevokedInScope(t, scope);
        RowsPersist(t, step, id);
      } else {
        NewRowsAreIssued(t, step, id);
      }
    }
  }

  lemma NewRowsAreIssued(t: Tables, step: Step, id: string)
    requires id !in t.capabilities && id in Apply(t, step).capabilities
    ensures step.Issue? && step.id == id && Apply(t, step).capabilities[id].budget == step.budget
  {
  }

  /** After a scope revocation no live capability of that scope is found, at any clock, until one is issued for it. */
  lemma NoLiveCapabilityAfterRevocation(run: seq<Step>, i: nat, scope: Scope, now: real)
    requires i < |run| && run[i].RevokeScope? && run[i].scope == scope
    requires forall k :: i < k < |run| && run[k].Issue? ==> run[k].budget.scope != scope
    ensures LiveInScope(After(run), scope, now) == {}
  {
    ScopeStaysRevoked(run, i, scope);
    assert LiveInScope(After(run), scope, now) <= UnrevokedInScope(After(run), scope);
  }
}
