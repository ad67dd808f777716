/**
  Folding delivery acknowledgements into the requests they belong to, and the aggregate
  that the operator diagnostics derive from the folded records.
 */
module DeliveryFolding {
  import opened Outcomes
  import opened RetrievalTables

  /** A `delivery` dict; an empty id stands for a missing or falsy `toolCallId`. */
  datatype Delivery = Delivery(toolCallId: string, state: string)

  /** A `correlation` dict with the two spellings of the tool call id. */
  datatype Correlation = Correlation(snakeId: string, camelId: string)

  /** The telemetry of a summary that folding never looks at; `latencyMs` is None when it is not a number. */
  datatype Telemetry = Telemetry(
    classification: string,
    resultCount: int,
    truncated: bool,
    fallback: bool,
    contextBytes: int,
    latencyMs: Option<real>
  )

  /** The fields of a summary; `None` is a field that is not a dict. */
  datatype Summary = Summary(state: string, correlation: Option<Correlation>, delivery: Option<Delivery>, telemetry: Telemetry)

  class Record {
    const state: string
    const correlation: Option<Correlation>
    const telemetry: Telemetry
    var delivery: Option<Delivery>

    constructor (summary: Summary)
      ensures Value() == summary
    {
      state := summary.state;
      correlation := summary.correlation;
      telemetry := summary.telemetry;
      delivery := summary.delivery;
    }

    function Value(): Summary
      reads this
    {
      Summary(state, correlation, delivery, telemetry)
    }
  }

  function CorrelationKey(s: Summary): Option<string> {
    if s.delivery.Some? && s.delivery.value.toolCallId != "" then Some(s.delivery.value.toolCallId)
    else if s.correlation.Some? && s.correlation.value.snakeId != "" then Some(s.correlation.value.snakeId)
    else if s.correlation.Some? && s.correlation.value.camelId != "" then Some(s.correlation.value.camelId)
    else None
  }

  /** A call is named by its delivery first, then by the two spellings of its correlation, empty names not counting. */
  lemma KeyPrecedence(s: Summary)
    ensures var byDelivery := s.delivery.Some? && s.delivery.value.toolCallId != "";
      var bySnake := s.correlation.Some? && s.correlation.value.snakeId != "";
      var byCamel := s.correlation.Some? && s.correlation.value.camelId != "";
      && (byDelivery ==> CorrelationKey(s) == Some(s.delivery.value.toolCallId))
      && (!byDelivery && bySnake ==> CorrelationKey(s) == Some(s.correlation.value.snakeId))
      && (!byDelivery && !bySnake && byCamel ==> CorrelationKey(s) == Some(s.correlation.value.camelId))
      && (!byDelivery && !bySnake && !byCamel ==> CorrelationKey(s) == None)
  {
  }

  predicate IsUpdate(s: Summary) {
    s.state == "delivery_updated"
  }

  /** Record `j` is a request that acknowledgements with this key may be folded into. */
  predicate IsBase(all: seq<Summary>, j: int, key: Option<string>) {
    0 <= j < |all| && key.Some? && !IsUpdate(all[j]) && CorrelationKey(all[j]) == key
  }

  predicate HasBase(all: seq<Summary>, n: nat, key: Option<string>)
    requires n <= |all|
  {
    n > 0 && (IsBase(all, n - 1, key) || HasBase(all, n - 1, key))
  }

  /** Record `i` is an acknowledgement with an earlier base: it is folded away. */
  predicate Folds(all: seq<Summary>, i: nat)
    requires i < |all|
  {
    IsUpdate(all[i]) && HasBase(all, i, CorrelationKey(all[i]))
  }

  lemma {:induction false} HasBaseWitness(all: seq<Summary>, n: nat, key: Option<string>)
    requires n <= |all|
    ensures HasBase(all, n, key) <==> exists j :: 0 <= j < n && IsBase(all, j, key)
  {
    if n > 0 {
      HasBaseWitness(all, n - 1, key);
    }
  }

  /** A record is folded away exactly if it is an acknowledgement of a call that an earlier request of the same name made. */
  lemma FoldsExactly(all: seq<Summary>, i: nat)
    requires i < |all|
    ensures Folds(all, i) <==>
      && all[i].state == "delivery_updated" && CorrelationKey(all[i]).Some?
      && exists j :: 0 <= j < i && all[j].state != "delivery_updated" && CorrelationKey(all[j]) == CorrelationKey(all[i])
  {
    HasBaseWitness(all, i, CorrelationKey(all[i]));
    if Folds(all, i) {
      var j :| 0 <= j < i && IsBase(all, j, CorrelationKey(all[i]));
      assert all[j].state != "delivery_updated";
    }
    if all[i].state == "delivery_updated" && CorrelationKey(all[i]).Some? {
      if j :| 0 <= j < i && all[j].state != "delivery_updated" && CorrelationKey(all[j]) == CorrelationKey(all[i]) {
        assert IsBase(all, j, CorrelationKey(all[i]));
      }
    }
  }

  /** Acknowledgement `i` carries a delivery for base `j`, the closest base of its key before it. */
  predicate Feeds(all: seq<Summary>, i: int, j: int) {
    && 0 <= j < i < |all|
    && IsUpdate(all[i]) && all[i].delivery.Some?
    && IsBase(all, j, CorrelationKey(all[i]))
    && (forall b :: j < b < i ==> !IsBase(all, b, CorrelationKey(all[i])))
  }

  /** Those of the first `n` items whose record survives, in order. */
  function Survivors<T>(all: seq<Summary>, items: seq<T>, n: nat): seq<T>
    requires n <= |all| == |items|
  {
    if n == 0 then [] else Survivors(all, items, n - 1) + (if Folds(all, n - 1) then [] else [items[n - 1]])
  }

  function Indices(n: nat): seq<nat> {
    seq(n, i => i)
  }

  /** The surviving indices are exactly those that do not fold, each once, in their order. */
  lemma {:induction false} SurvivingIndices(all: seq<Summary>, n: nat)
    requires n <= |all|
    ensures var kept := Survivors(all, Indices(|all|), n);
      && (forall p :: 0 <= p < |kept| ==> kept[p] < n)
      && (forall p, q :: 0 <= p < q < |kept| ==> kept[p] < kept[q])
      && (forall i :: i in kept <==> 0 <= i < n && !Folds(all, i))
  {
    hide Folds;
    if n > 0 {
      SurvivingIndices(all, n - 1);
    }
  }

  /** Whatever the items are, the survivors are the items at the surviving indices. */
  lemma {:induction false} SurvivorsAt<T>(all: seq<Summary>, items: seq<T>, n: nat)
    requires n <= |all| == |items|
    ensures var kept := Survivors(all, Indices(|all|), n);
      && |Survivors(all, items, n)| == |kept|
      && (forall p :: 0 <= p < |kept| ==> 0 <= kept[p] < n && Survivors(all, items, n)[p] == items[kept[p]])
  {
    if n > 0 {
      SurvivorsAt(all, items, n - 1);
    }
  }

  function Values(records: seq<Record>): seq<Summary>
    reads records
  {
    seq(|records|, i requires 0 <= i < |records| reads records => records[i].Value())
  }

  ghost predicate Distinct(records: seq<Record>) {
    forall i, j :: 0 <= i < j < |records| ==> records[i] != records[j]
  }

  /** What record `j` holds once the first `n` records are folded. */
  ghost function FoldedDelivery(all: seq<Summary>, j: nat, n: nat): Option<Delivery>
    requires j < |all|
  {
    if n == 0 then all[j].delivery
    else if Feeds(all, n - 1, j) then all[n - 1].delivery
    else FoldedDelivery(all, j, n - 1)
  }

  /** A record ends with the delivery of the last acknowledgement that feeds it, or with its own. */
  lemma {:induction false} LastFeedWins(all: seq<Summary>, i: nat, j: nat, n: nat)
    requires j < |all|
    ensures (forall k :: 0 <= k < n ==> !Feeds(all, k, j)) ==> FoldedDelivery(all, j, n) == all[j].delivery
    ensures i < n && Feeds(all, i, j) && (forall k :: i < k < n ==> !Feeds(all, k, j)) ==> FoldedDelivery(all, j, n) == all[i].delivery
  {
    if n > 0 {
      LastFeedWins(all, i, j, n - 1);
    }
  }

  /** The index table of the loop: each key names its latest base among the first `n` records. */
  ghost predicate LatestBases(all: seq<Summary>, byKey: map<string, nat>, n: nat) {
    && (forall key :: key in byKey ==> byKey[key] < n && IsBase(all, byKey[key], Some(key)))
    && (forall key, j :: 0 <= j < n && IsBase(all, j, Some(key)) ==> key in byKey && j <= byKey[key])
  }

  /** The index table after the first `n` records. */
  function Bases(all: seq<Summary>, n: nat): map<string, nat>
    requires n <= |all|
  {
    if n == 0 then map[] else
      var key := CorrelationKey(all[n - 1]);
      if !IsUpdate(all[n - 1]) && key.Some? then Bases(all, n - 1)[key.value := n - 1] else Bases(all, n - 1)
  }

  lemma {:induction false} BasesAreLatest(all: seq<Summary>, n: nat)
    requires n <= |all|
    ensures LatestBases(all, Bases(all, n), n)
  {
    if n > 0 {
      BasesAreLatest(all, n - 1);
    }
  }

  /** The base that record `n` is folded into, as the index table finds it. */
  function Target(all: seq<Summary>, n: nat): Option<nat>
    requires n < |all|
  {
    var key := CorrelationKey(all[n]);
    if IsUpdate(all[n]) && key.Some? && key.value in Bases(all, n) then Some(Bases(all, n)[key.value]) else None
  }

  lemma TargetFound(all: seq<Summary>, n: nat)
    requires n < |all|
    ensures Folds(all, n) <==> Target(all, n).Some?
    ensures Target(all, n).Some? ==> Target(all, n).value < n
  {
    BasesAreLatest(all, n);
    var key := CorrelationKey(all[n]);
    HasBaseWitness(all, n, key);
    if Folds(all, n) {
      var j :| 0 <= j < n && IsBase(all, j, key);
      assert IsBase(all, j, Some(key.value));
    }
  }

  lemma TargetIsClosestBase(all: seq<Summary>, n: nat, j: nat)
    requires n < |all|
    ensures Feeds(all, n, j) <==> Target(all, n) == Some(j) && all[n].delivery.Some?
  {
    BasesAreLatest(all, n);
    var key := CorrelationKey(all[n]);
    if Feeds(all, n, j) {
      assert IsBase(all, j, Some(key.value));
    }
  }

  lemma TargetIsFed(all: seq<Summary>, n: nat)
    requires n < |all|
    ensures forall j :: 0 <= j < |all| ==>
      FoldedDelivery(all, j, n + 1)
      == if Target(all, n) == Some(j) && all[n].delivery.Some? then all[n].delivery else FoldedDelivery(all, j, n)
  {
    forall j | 0 <= j < |all|
      ensures Feeds(all, n, j) <==> Target(all, n) == Some(j) && all[n].delivery.Some?
    {
      TargetIsClosestBase(all, n, j);
    }
  }

  lemma NothingFolded(all: seq<Summary>)
    ensures forall j :: 0 <= j < |all| ==> FoldedDelivery(all, j, 0) == all[j].delivery
  {
  }

  /** What one turn of the loop does to the survivors, the index table and the deliveries. */
  lemma TurnOfLoop<T>(all: seq<Summary>, items: seq<T>, n: nat)
    requires n < |all| == |items|
    ensures Target(all, n).Some? ==> Target(all, n).value < n
    ensures Survivors(all, items, n + 1) == Survivors(all, items, n) + (if Target(all, n).Some? then [] else [items[n]])
    ensures Bases(all, n + 1) ==
      if !IsUpdate(all[n]) && CorrelationKey(all[n]).Some? then Bases(all, n)[CorrelationKey(all[n]).value := n] else Bases(all, n)
    ensures forall j :: 0 <= j < |all| ==>
      FoldedDelivery(all, j, n + 1)
      == if Target(all, n) == Some(j) && all[n].delivery.Some? then all[n].delivery else FoldedDelivery(all, j, n)
  {
    TargetFound(all, n);
    TargetIsFed(all, n);
  }

  method MergeDelivery(requests: seq<Record>) returns (merged: seq<Record>)
    requires Distinct(requests)
    modifies requests
    ensures merged == Survivors(old(Values(requests)), requests, |requests|)
    ensures forall j :: 0 <= j < |requests| ==> requests[j].delivery == FoldedDelivery(old(Values(requests)), j, |requests|)
  {
    ghost var all := Values(requests);
    NothingFolded(all);
    merged := [];
    var byKey: map<string, nat> := map[];
    hide FoldedDelivery, HasBase, CorrelationKey;
    for n := 0 to |requests|
      invariant byKey == Bases(all, n)
      invariant forall j :: 0 <= j < |requests| ==> requests[j].delivery == FoldedDelivery(all, j, n)
      invariant forall j :: n <= j < |requests| ==> requests[j].delivery == all[j].delivery
      invariant merged == Survivors(all, requests, n)
    {
      var request := requests[n];
      TurnOfLoop(all, requests, n);
      assert request.Value() == all[n];
      hide Survivors, Bases, Folds;
      var key := CorrelationKey(request.Value());
      if request.state == "delivery_updated" {
        if key.Some? && key.value in byKey {
          if request.delivery.Some? {
            requests[byKey[key.value]].delivery := request.delivery;
          }
        } else {
          merged := merged + [request];
        }
      } else {
        merged := merged + [request];
        if key.Some? {
          byKey := byKey[key.value := n];
        }
      }
    }
  }

  // ------------------------------------------------------------- aggregate

  /** The projection that `status` reads, when it reads the clock, and the stored evidence summaries. */
  datatype CapabilityStatus = CapabilityStatus(projection: CapabilityRow, statusAt: real, requests: seq<Summary>)

  function StateOf(capability: CapabilityStatus): Lifecycle {
    LifecycleOf(capability.projection, capability.statusAt)
  }

  datatype Aggregate = Aggregate(
    requestCount: nat := 0,
    succeeded: nat := 0,
    failed: nat := 0,
    denied: nat := 0,
    empty: nat := 0,
    truncated: nat := 0,
    fallback: nat := 0,
    budgetExhausted: nat := 0,
    delivered: nat := 0,
    notDelivered: nat := 0,
    deliveryUnknown: nat := 0,
    cancelled: nat := 0,
    timedOut: nat := 0,
    totalContextBytes: int := 0,
    maxLatencyMs: int := 0,
    activeCapabilities: nat := 0,
    expiredCapabilities: nat := 0,
    revokedCapabilities: nat := 0
  )

  function Lifecycles(a: Aggregate): (nat, nat, nat) {
    (a.activeCapabilities, a.expiredCapabilities, a.revokedCapabilities)
  }

  predicate ExhaustsBudget(classification: string) {
    classification in {
      "budget_exhausted", "byte_budget_exhausted", "concurrency_exceeded", "rate_exceeded",
      "source_budget_exhausted", "token_budget_exhausted", "tokens_budget_exhausted"
    }
  }

  predicate TimesOut(classification: string) {
    classification in {"latency_budget_exhausted", "stage_deadline_exhausted", "latency_ms_budget_exhausted"}
  }

  /** What a request can be counted as. */
  datatype Class =
    | InState(state: string)
    | EmptySuccess
    | IsTruncated
    | FellBack
    | ExhaustedBudget
    | RanOutOfTime
    | DeliveredAs(state: string)

  predicate InClass(s: Summary, c: Class) {
    match c
    case InState(state) => s.state == state
    case EmptySuccess => s.state == "succeeded" && s.telemetry.resultCount == 0
    case IsTruncated => s.telemetry.truncated
    case FellBack => s.telemetry.classification == "local_fallback" || s.telemetry.fallback
    case ExhaustedBudget => ExhaustsBudget(s.telemetry.classification)
    case RanOutOfTime => TimesOut(s.telemetry.classification)
    case DeliveredAs(state) => s.delivery.Some? && s.delivery.value.state == state
  }

  /** The classifications that count as an exhausted budget and as a timeout. */
  lemma ClassificationsExactly(c: string)
    ensures ExhaustsBudget(c) <==>
      c == "budget_exhausted" || c == "byte_budget_exhausted" || c == "concurrency_exceeded" || c == "rate_exceeded"
      || c == "source_budget_exhausted" || c == "token_budget_exhausted" || c == "tokens_budget_exhausted"
    ensures TimesOut(c) <==> c == "latency_budget_exhausted" || c == "stage_deadline_exhausted" || c == "latency_ms_budget_exhausted"
  {
  }

  function One(counted: bool): nat {
    if counted then 1 else 0
  }

  function Count(requests: seq<Summary>, c: Class): nat {
    if requests == [] then 0 else
      Count(requests[..|requests| - 1], c) + One(InClass(requests[|requests| - 1], c))
  }

  function TotalBytes(requests: seq<Summary>): int {
    if requests == [] then 0 else TotalBytes(requests[..|requests| - 1]) + requests[|requests| - 1].telemetry.contextBytes
  }

  /** `int()` of a number drops its fraction. */
  function Truncate(x: real): int {
    if x >= 0.0 then x.Floor else -((-x).Floor)
  }

  /** The fraction goes towards zero. */
  lemma TruncateMeaning(x: real)
    ensures 0.0 <= x ==> Truncate(x) as real <= x < Truncate(x) as real + 1.0
    ensures x < 0.0 ==> Truncate(x) as real - 1.0 < x <= Truncate(x) as real
  {
  }

  function Larger(a: int, b: int): int {
    if a < b then b else a
  }

  /** The largest latency, which is never below zero. */
  function MaxLatency(requests: seq<Summary>): int {
    if requests == [] then 0 else
      var earlier, last := MaxLatency(requests[..|requests| - 1]), requests[|requests| - 1].telemetry.latencyMs;
      if last.Some? then Larger(earlier, Truncate(last.value)) else earlier
  }

  /** Every counter is the number of requests of its class; a timeout is counted for the call and for its delivery. */
  predicate Tallies(a: Aggregate, requests: seq<Summary>) {
    && a.requestCount == |requests|
    && TalliesOutcome(a, requests)
    && TalliesTelemetry(a, requests)
    && TalliesDelivery(a, requests)
  }

  predicate TalliesOutcome(a: Aggregate, requests: seq<Summary>) {
    && a.succeeded == Count(requests, InState("succeeded"))
    && a.failed == Count(requests, InState("failed"))
    && a.denied == Count(requests, InState("denied"))
    && a.empty == Count(requests, EmptySuccess)
  }

  predicate TalliesTelemetry(a: Aggregate, requests: seq<Summary>) {
    && a.truncated == Count(requests, IsTruncated)
    && a.fallback == Count(requests, FellBack)
    && a.budgetExhausted == Count(requests, ExhaustedBudget)
    && a.totalContextBytes == TotalBytes(requests)
    && a.maxLatencyMs == MaxLatency(requests)
  }

  predicate TalliesDelivery(a: Aggregate, requests: seq<Summary>) {
    && a.delivered == Count(requests, DeliveredAs("delivered"))
    && a.notDelivered == Count(requests, DeliveredAs("not_delivered"))
    && a.deliveryUnknown == Count(requests, DeliveredAs("delivery_unknown"))
    && a.cancelled == Count(requests, DeliveredAs("cancelled"))
    && a.timedOut == Count(requests, RanOutOfTime) + Count(requests, DeliveredAs("timed_out"))
  }

  lemma CountSnoc(requests: seq<Summary>, s: Summary, c: Class)
    ensures Count(requests + [s], c) == Count(requests, c) + One(InClass(s, c))
  {
    assert (requests + [s])[..|requests|] == requests;
  }

  lemma TotalsSnoc(requests: seq<Summary>, s: Summary)
    ensures TotalBytes(requests + [s]) == TotalBytes(requests) + s.telemetry.contextBytes
    ensures MaxLatency(requests + [s]) ==
      if s.telemetry.latencyMs.Some? then Larger(MaxLatency(requests), Truncate(s.telemetry.latencyMs.value)) else MaxLatency(requests)
  {
    assert (requests + [s])[..|requests|] == requests;
  }

  lemma {:induction false} OutcomesAreDisjoint(requests: seq<Summary>)
    ensures Count(requests, InState("succeeded")) + Count(requests, InState("denied")) + Count(requests, InState("failed")) <= |requests|
    ensures Count(requests, EmptySuccess) <= Count(requests, InState("succeeded"))
  {
    hide ExhaustsBudget, TimesOut;
    if requests != [] {
      OutcomesAreDisjoint(requests[..|requests| - 1]);
    }
  }

  lemma {:induction false} DeliveriesAreDisjoint(requests: seq<Summary>)
    ensures Count(requests, DeliveredAs("delivered")) + Count(requests, DeliveredAs("not_delivered"))
      + Count(requests, DeliveredAs("delivery_unknown")) + Count(requests, DeliveredAs("cancelled"))
      + Count(requests, DeliveredAs("timed_out")) <= |requests|
  {
    hide InClass;
    if requests != [] {
      DeliveriesAreDisjoint(requests[..|requests| - 1]);
      OneDelivery(requests[|requests| - 1]);
    }
  }

  lemma OneDelivery(s: Summary)
    ensures One(InClass(s, DeliveredAs("delivered"))) + One(InClass(s, DeliveredAs("not_delivered")))
      + One(InClass(s, DeliveredAs("delivery_unknown"))) + One(InClass(s, DeliveredAs("cancelled")))
      + One(InClass(s, DeliveredAs("timed_out"))) <= 1
  {
  }

  /** No request is counted in two outcome classes, or in two delivery classes. */
  lemma ClassesAreDisjoint(requests: seq<Summary>)
    ensures Count(requests, InState("succeeded")) + Count(requests, InState("denied")) + Count(requests, InState("failed")) <= |requests|
    ensures Count(requests, EmptySuccess) <= Count(requests, InState("succeeded"))
    ensures Count(requests, DeliveredAs("delivered")) + Count(requests, DeliveredAs("not_delivered"))
      + Count(requests, DeliveredAs("delivery_unknown")) + Count(requests, DeliveredAs("cancelled"))
      + Count(requests, DeliveredAs("timed_out")) <= |requests|
  {
    OutcomesAreDisjoint(requests);
    DeliveriesAreDisjoint(requests);
  }

  /** The latency is the maximum: no request exceeds it, and it is zero or the latency of one. */
  lemma {:induction false} MaxLatencyIsMaximum(requests: seq<Summary>)
    ensures 0 <= MaxLatency(requests)
    ensures forall i :: 0 <= i < |requests| && requests[i].telemetry.latencyMs.Some? ==>
      Truncate(requests[i].telemetry.latencyMs.value) <= MaxLatency(requests)
    ensures MaxLatency(requests) != 0 ==>
      exists i :: 0 <= i < |requests| && requests[i].telemetry.latencyMs.Some? && Truncate(requests[i].telemetry.latencyMs.value) == MaxLatency(requests)
  {
    hide Truncate;
    if requests != [] {
      MaxLatencyIsMaximum(requests[..|requests| - 1]);
      assert forall i :: 0 <= i < |requests| - 1 ==> requests[..|requests| - 1][i] == requests[i];
    }
  }

  /** The logical requests of one capability: the surviving records with their folded deliveries. */
  ghost function LogicalRequests(all: seq<Summary>): seq<Summary> {
    Survivors(all, seq(|all|, j requires 0 <= j < |all| => all[j].(delivery := FoldedDelivery(all, j, |all|))), |all|)
  }

  ghost function AllLogicalRequests(capabilities: seq<CapabilityStatus>, n: nat): seq<Summary>
    requires n <= |capabilities|
  {
    if n == 0 then [] else AllLogicalRequests(capabilities, n - 1) + LogicalRequests(capabilities[n - 1].requests)
  }

  function CountLifecycle(capabilities: seq<CapabilityStatus>, n: nat, state: Lifecycle): nat
    requires n <= |capabilities|
  {
    if n == 0 then 0 else CountLifecycle(capabilities, n - 1, state) + (if StateOf(capabilities[n - 1]) == state then 1 else 0)
  }

  ghost predicate TalliesLifecycles(a: Aggregate, capabilities: seq<CapabilityStatus>, n: nat)
    requires n <= |capabilities|
  {
    && a.activeCapabilities == CountLifecycle(capabilities, n, ActiveState)
    && a.expiredCapabilities == CountLifecycle(capabilities, n, ExpiredState)
    && a.revokedCapabilities == CountLifecycle(capabilities, n, RevokedState)
  }

  method CountOutcome(aggregate: Aggregate, request: Record, ghost counted: seq<Summary>) returns (a: Aggregate)
    requires TalliesOutcome(aggregate, counted)
    ensures TalliesOutcome(a, counted + [request.Value()])
    ensures a == aggregate.(succeeded := a.succeeded, failed := a.failed, denied := a.denied, empty := a.empty)
  {
    ghost var s := request.Value();
    CountSnoc(counted, s, InState("succeeded"));
    CountSnoc(counted, s, InState("failed"));
    CountSnoc(counted, s, InState("denied"));
    CountSnoc(counted, s, EmptySuccess);
    hide Count, ExhaustsBudget, TimesOut;
    a := aggregate;
    if request.state == "succeeded" {
      a := a.(succeeded := a.succeeded + 1);
      if request.telemetry.resultCount == 0 {
        a := a.(empty := a.empty + 1);
      }
    } else if request.state == "denied" {
      a := a.(denied := a.denied + 1);
    } else if request.state == "failed" {
      a := a.(failed := a.failed + 1);
    }
  }

  lemma TelemetrySnoc(requests: seq<Summary>, s: Summary, before: Aggregate, a: Aggregate)
    requires TalliesTelemetry(before, requests)
    requires a.truncated == before.truncated + One(InClass(s, IsTruncated))
    requires a.fallback == before.fallback + One(InClass(s, FellBack))
    requires a.budgetExhausted == before.budgetExhausted + One(InClass(s, ExhaustedBudget))
    requires a.totalContextBytes == before.totalContextBytes + s.telemetry.contextBytes
    requires a.maxLatencyMs ==
      if s.telemetry.latencyMs.Some? then Larger(before.maxLatencyMs, Truncate(s.telemetry.latencyMs.value)) else before.maxLatencyMs
    ensures TalliesTelemetry(a, requests + [s])
  {
    hide Count, InClass, TotalBytes, MaxLatency, Truncate;
    CountSnoc(requests, s, IsTruncated);
    CountSnoc(requests, s, FellBack);
    CountSnoc(requests, s, ExhaustedBudget);
    TotalsSnoc(requests, s);
  }

  /** Everything between the outcome and the delivery; the first half of the timeouts is counted here. */
  method CountTelemetry(aggregate: Aggregate, request: Record, ghost counted: seq<Summary>) returns (a: Aggregate)
    requires TalliesTelemetry(aggregate, counted)
    ensures TalliesTelemetry(a, counted + [request.Value()])
    ensures a == aggregate.(
      truncated := a.truncated, fallback := a.fallback, budgetExhausted := a.budgetExhausted,
      totalContextBytes := a.totalContextBytes, maxLatencyMs := a.maxLatencyMs, timedOut := a.timedOut)
    ensures a.timedOut == aggregate.timedOut + One(InClass(request.Value(), RanOutOfTime))
  {
    hide Count, TotalBytes, MaxLatency, ExhaustsBudget, TimesOut, Truncate, TalliesTelemetry;
    var telemetry := request.telemetry;
    var fellBack := telemetry.classification == "local_fallback" || telemetry.fallback;
    a := aggregate.(
      truncated := aggregate.truncated + One(telemetry.truncated),
      fallback := aggregate.fallback + One(fellBack),
      budgetExhausted := aggregate.budgetExhausted + One(ExhaustsBudget(telemetry.classification)),
      timedOut := aggregate.timedOut + One(TimesOut(telemetry.classification)),
      totalContextBytes := aggregate.totalContextBytes + telemetry.contextBytes);
    if telemetry.latencyMs.Some? {
      a := a.(maxLatencyMs := Larger(a.maxLatencyMs, Truncate(telemetry.latencyMs.value)));
    }
    TelemetrySnoc(counted, request.Value(), aggregate, a);
  }

  method CountDelivery(aggregate: Aggregate, request: Record) returns (a: Aggregate)
    ensures a == aggregate.(
      delivered := aggregate.delivered + One(InClass(request.Value(), DeliveredAs("delivered"))),
      notDelivered := aggregate.notDelivered + One(InClass(request.Value(), DeliveredAs("not_delivered"))),
      deliveryUnknown := aggregate.deliveryUnknown + One(InClass(request.Value(), DeliveredAs("delivery_unknown"))),
      cancelled := aggregate.cancelled + One(InClass(request.Value(), DeliveredAs("cancelled"))),
      timedOut := aggregate.timedOut + One(InClass(request.Value(), DeliveredAs("timed_out"))))
  {
    hide ExhaustsBudget, TimesOut;
    a := aggregate;
    if request.delivery.Some? {
      var state := request.delivery.value.state;
      if state == "delivered" {
        a := a.(delivered := a.delivered + 1);
      } else if state == "not_delivered" {
        a := a.(notDelivered := a.notDelivered + 1);
      } else if state == "delivery_unknown" {
        a := a.(deliveryUnknown := a.deliveryUnknown + 1);
      } else if state == "cancelled" {
        a := a.(cancelled := a.cancelled + 1);
      } else if state == "timed_out" {
        a := a.(timedOut := a.timedOut + 1);
      }
    }
  }

  lemma DeliverySnoc(requests: seq<Summary>, s: Summary, before: Aggregate, a: Aggregate)
    requires TalliesDelivery(before, requests)
    requires a.delivered == before.delivered + One(InClass(s, DeliveredAs("delivered")))
    requires a.notDelivered == before.notDelivered + One(InClass(s, DeliveredAs("not_delivered")))
    requires a.deliveryUnknown == before.deliveryUnknown + One(InClass(s, DeliveredAs("delivery_unknown")))
    requires a.cancelled == before.cancelled + One(InClass(s, DeliveredAs("cancelled")))
    requires a.timedOut == before.timedOut + One(InClass(s, RanOutOfTime)) + One(InClass(s, DeliveredAs("timed_out")))
    ensures TalliesDelivery(a, requests + [s])
  {
    hide Count, InClass;
    CountSnoc(requests, s, DeliveredAs("delivered"));
    CountSnoc(requests, s, DeliveredAs("not_delivered"));
    CountSnoc(requests, s, DeliveredAs("delivery_unknown"));
    CountSnoc(requests, s, DeliveredAs("cancelled"));
    CountSnoc(requests, s, RanOutOfTime);
    CountSnoc(requests, s, DeliveredAs("timed_out"));
  }

  method CountRequest(aggregate: Aggregate, request: Record, ghost counted: seq<Summary>) returns (a: Aggregate)
    requires Tallies(aggregate, counted)
    ensures Tallies(a, counted + [request.Value()]) && Lifecycles(a) == Lifecycles(aggregate)
  {
    hide Count, InClass, TotalBytes, MaxLatency, TalliesDelivery;
    a := aggregate.(requestCount := aggregate.requestCount + 1);
    a := CountOutcome(a, request, counted);
    a := CountTelemetry(a, request, counted);
    a := CountDelivery(a, request);
    DeliverySnoc(counted, request.Value(), aggregate, a);
  }

  /** Decoding the stored rows makes a new dict for each. */
  method Load(summaries: seq<Summary>) returns (records: seq<Record>)
    ensures Distinct(records) && fresh(records) && Values(records) == summaries
  {
    records := [];
    for n := 0 to |summaries|
      invariant |records| == n && fresh(records) && Distinct(records)
      invariant forall i :: 0 <= i < n ==> records[i].Value() == summaries[i]
    {
      var record := new Record(summaries[n]);
      records := records + [record];
    }
  }

  /** Folding the decoded rows of one capability leaves exactly its logical requests. */
  method LoadAndMerge(all: seq<Summary>) returns (merged: seq<Record>)
    ensures Values(merged) == LogicalRequests(all)
  {
    var records := Load(all);
    merged := MergeDelivery(records);
    var folded := seq(|all|, j requires 0 <= j < |all| => all[j].(delivery := FoldedDelivery(all, j, |all|)));
    SurvivorsAt(all, records, |all|);
    SurvivorsAt(all, folded, |all|);
    assert forall j :: 0 <= j < |all| ==> records[j].Value() == folded[j];
  }

  method CountRequests(aggregate: Aggregate, merged: seq<Record>, ghost counted: seq<Summary>) returns (a: Aggregate)
    requires Tallies(aggregate, counted)
    ensures Tallies(a, counted + Values(merged)) && Lifecycles(a) == Lifecycles(aggregate)
  {
    hide Tallies, Survivors;
    a := aggregate;
    assert counted + Values(merged)[..0] == counted;
    for p := 0 to |merged|
      invariant Lifecycles(a) == Lifecycles(aggregate)
      invariant Tallies(a, counted + Values(merged)[..p])
    {
      a := CountRequest(a, merged[p], counted + Values(merged)[..p]);
      assert counted + Values(merged)[..p] + [merged[p].Value()] == counted + Values(merged)[..p + 1];
    }
    assert Values(merged)[..|merged|] == Values(merged);
  }

  lemma NothingTallied(requests: seq<Summary>, a: Aggregate)
    requires requests == [] && a == Aggregate()
    ensures Tallies(a, requests)
  {
  }

  /** Counting a capability by its state touches no request counter. */
  method CountCapability(aggregate: Aggregate, capabilities: seq<CapabilityStatus>, n: nat, ghost counted: seq<Summary>) returns (a: Aggregate)
    requires n < |capabilities|
    requires TalliesLifecycles(aggregate, capabilities, n) && Tallies(aggregate, counted)
    requires aggregate.activeCapabilities + aggregate.expiredCapabilities + aggregate.revokedCapabilities == n
    ensures TalliesLifecycles(a, capabilities, n + 1) && Tallies(a, counted)
    ensures a.activeCapabilities + a.expiredCapabilities + a.revokedCapabilities == n + 1
  {
    hide Count, InClass, TotalBytes, MaxLatency, LifecycleOf;
    a := aggregate;
    match StateOf(capabilities[n]) {
      case ActiveState => a := a.(activeCapabilities := a.activeCapabilities + 1);
      case ExpiredState => a := a.(expiredCapabilities := a.expiredCapabilities + 1);
      case RevokedState => a := a.(revokedCapabilities := a.revokedCapabilities + 1);
    }
  }

  method Summarize(capabilities: seq<CapabilityStatus>) returns (a: Aggregate)
    ensures TalliesLifecycles(a, capabilities, |capabilities|)
    ensures a.activeCapabilities + a.expiredCapabilities + a.revokedCapabilities == |capabilities|
    ensures Tallies(a, AllLogicalRequests(capabilities, |capabilities|))
    ensures a.succeeded + a.denied + a.failed <= a.requestCount
  {
    hide Tallies;
    a := Aggregate();
    NothingTallied(AllLogicalRequests(capabilities, 0), a);
    for n := 0 to |capabilities|
      invariant TalliesLifecycles(a, capabilities, n)
      invariant a.activeCapabilities + a.expiredCapabilities + a.revokedCapabilities == n
      invariant Tallies(a, AllLogicalRequests(capabilities, n))
    {
      a := CountCapability(a, capabilities, n, AllLogicalRequests(capabilities, n));
      var merged := LoadAndMerge(capabilities[n].requests);
      a := CountRequests(a, merged, AllLogicalRequests(capabilities, n));
    }
    OutcomesFit(a, AllLogicalRequests(capabilities, |capabilities|));
  }

  lemma OutcomesFit(a: Aggregate, requests: seq<Summary>)
    requires Tallies(a, requests)
    ensures a.succeeded + a.denied + a.failed <= a.requestCount
  {
    hide Count, InClass, TotalBytes, MaxLatency;
    ClassesAreDisjoint(requests);
  }
}
