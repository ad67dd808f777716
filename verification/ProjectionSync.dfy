/**
  Refreshing the local projection and the canonical row of a workflow execution from what
  Temporal reports about it.
 */
module ProjectionSync {
  import opened Outcomes

  datatype Lifecycle =
    | Scheduled | Initializing | WaitingOnDependencies | Planning | AwaitingSlot
    | Executing | AwaitingExternal | Proposals | Finalizing
    | NoCommit | Completed | Failed | Canceled

  datatype Closing = ClosedCompleted | ClosedFailed | ClosedCanceled | ClosedTerminated | ClosedTimedOut

  /** The statuses Temporal reports; `UnknownStatus` is anything the table does not list. */
  datatype Status =
    | StatusRunning | StatusCompleted | StatusFailed | StatusCanceled
    | StatusTerminated | StatusTimedOut | StatusContinuedAsNew | UnknownStatus

  datatype Field =
    | RunId | State | CloseStatus | StartedAt | UpdatedAt | ClosedAt | WorkflowId | Namespace | WorkflowType
    | CreateIdempotencyKey | LastUpdateIdempotencyKey | LastUpdateResponse | FinishOutcomeCode | FinishSummaryJson
    | Memo | Parameters
    | Other(name: string)

  type Entries = map<string, string>

  datatype Value = Nothing | Text(text: string) | Moment(at: real) | Stage(stage: Lifecycle) | Closed(closing: Closing) | Dict(entries: Entries)

  type Fields = map<Field, Value>

  const CORE: set<Field> := {RunId, State, CloseStatus, StartedAt, UpdatedAt, ClosedAt, WorkflowId, Namespace, WorkflowType}

  /** The columns the database keeps when Temporal does not supply them. */
  function LocalOnly(): (listed: seq<Field>)
    ensures UpdatedAt !in listed && Memo !in listed && Parameters !in listed
  {
    [CreateIdempotencyKey, LastUpdateIdempotencyKey, LastUpdateResponse, FinishOutcomeCode, FinishSummaryJson]
  }

  const PRE_WORK: set<Lifecycle> := {Scheduled, Initializing, WaitingOnDependencies, Planning, AwaitingSlot}

  function Get(fields: Fields, f: Field): Value {
    if f in fields then fields[f] else Nothing
  }

  function EntriesOf(v: Value): Entries {
    if v.Dict? then v.entries else map[]
  }

  // ------------------------------------------------- what Temporal reports

  /** A decoded memo with what is read out of its entries; an empty memo yields nothing. */
  datatype MemoContents = MemoContents(entries: Entries, parameters: Entries, local: map<Field, Value>)

  datatype Description = Description(
    id: string,
    runId: string,
    namespace: string,
    workflowType: string,
    status: Status,
    domainState: Option<Lifecycle>,
    scheduledFor: Option<real>,
    semanticStartedAt: Option<real>,
    semanticUpdatedAt: Option<real>,
    startTime: Option<real>,
    executionTime: Option<real>,
    closeTime: Option<real>,
    memo: Option<MemoContents>,
    others: Fields
  )

  /** The close status that belongs to a terminal lifecycle state. */
  function CloseOf(state: Lifecycle): Option<Closing> {
    match state
    case NoCommit => Some(ClosedCompleted)
    case Completed => Some(ClosedCompleted)
    case Failed => Some(ClosedFailed)
    case Canceled => Some(ClosedCanceled)
    case _ => None
  }

  function StatusState(status: Status): (Lifecycle, Option<Closing>) {
    match status
    case StatusCompleted => (Completed, Some(ClosedCompleted))
    case StatusFailed => (Failed, Some(ClosedFailed))
    case StatusCanceled => (Canceled, Some(ClosedCanceled))
    case StatusTerminated => (Failed, Some(ClosedTerminated))
    case StatusTimedOut => (Failed, Some(ClosedTimedOut))
    case StatusContinuedAsNew => (Completed, Some(ClosedCompleted))
    case _ => (Executing, None)
  }

  /** A closed execution always gets a terminal state that fits its close status; only an open one can be before its work. */
  function StateAndClose(d: Description): (r: (Lifecycle, Option<Closing>))
    ensures r.1.None? <==> d.status == StatusRunning || d.status == UnknownStatus
    ensures r.1.Some? ==> CloseOf(r.0).Some?
    ensures r.1.Some? && CloseOf(r.0) != r.1 ==> d.status == StatusTerminated || d.status == StatusTimedOut
    ensures r.0 in PRE_WORK ==> d.status == StatusRunning && d.domainState == Some(r.0)
  {
    var (state, close) := StatusState(d.status);
    if d.domainState.None? then (state, close)
    else if d.status == StatusRunning then (d.domainState.value, close)
    else if d.status == StatusCompleted && CloseOf(d.domainState.value).Some?
    then (d.domainState.value, CloseOf(d.domainState.value))
    else (state, close)
  }

  function Later(a: real, b: real): real {
    if a < b then b else a
  }

  /** Without a stamp of its own, nothing has started before the work, nor before the scheduled time. */
  function StartedAtOf(d: Description): (r: Option<real>)
    ensures d.semanticStartedAt.Some? ==> r == d.semanticStartedAt
    ensures d.semanticStartedAt.None? && r.Some? ==>
      && StateAndClose(d).0 !in PRE_WORK
      && (d.scheduledFor.Some? ==> d.scheduledFor.value <= r.value)
      && (d.executionTime.Some? ==> d.executionTime.value <= r.value)
    ensures r.None? <==>
      && d.semanticStartedAt.None?
      && (StateAndClose(d).0 in PRE_WORK || (d.executionTime.None? && d.startTime.None?))
  {
    if d.semanticStartedAt.Some? then d.semanticStartedAt
    else if StateAndClose(d).0 in PRE_WORK then None
    else
      var legacy := if d.executionTime.Some? then d.executionTime else d.startTime;
      if legacy.Some? && d.scheduledFor.Some? then Some(Later(legacy.value, d.scheduledFor.value)) else legacy
  }

  function OptionalMoment(at: Option<real>): Value {
    if at.Some? then Moment(at.value) else Nothing
  }

  function ReadMemo(d: Description): MemoContents {
    if d.memo.Some? && d.memo.value.entries != map[] then d.memo.value else MemoContents(map[], map[], map[])
  }

  function CoreValue(d: Description, f: Field): Value {
    match f
    case WorkflowId => Text(d.id)
    case RunId => Text(d.runId)
    case Namespace => Text(d.namespace)
    case WorkflowType => Text(d.workflowType)
    case State => Stage(StateAndClose(d).0)
    case CloseStatus => if StateAndClose(d).1.Some? then Closed(StateAndClose(d).1.value) else Nothing
    case StartedAt => OptionalMoment(StartedAtOf(d))
    case UpdatedAt => OptionalMoment(d.semanticUpdatedAt)
    case ClosedAt => OptionalMoment(d.closeTime)
    case _ => Nothing
  }

  function CoreFields(d: Description): Fields {
    map f | f in CORE :: CoreValue(d, f)
  }

  function MemoFields(d: Description): Fields {
    var memo := ReadMemo(d);
    (map f | f in LocalOnly() :: Get(memo.local, f)) + map[Memo := Dict(memo.entries), Parameters := Dict(memo.parameters)]
  }

  /** What the mapping hands to a sync. */
  datatype Reported = Reported(fields: Fields, memoLoaded: bool)

  /** The memo could not be decoded, or is empty. */
  predicate MetadataMissing(r: Reported) {
    !r.memoLoaded || EntriesOf(Get(r.fields, Memo)) == map[]
  }

  /** The columns every mapping supplies; parameters are read out of the memo. */
  predicate Mapped(r: Reported) {
    && UpdatedAt in r.fields && StartedAt in r.fields && Memo in r.fields && Parameters in r.fields
    && (forall f :: f in LocalOnly() ==> f in r.fields)
    && (MetadataMissing(r) ==> EntriesOf(r.fields[Memo]) == map[] && EntriesOf(r.fields[Parameters]) == map[])
  }

  const BLANK := Reported(
    (map f | f in LocalOnly() :: Nothing) + map[UpdatedAt := Nothing, StartedAt := Nothing, Memo := Nothing, Parameters := Nothing],
    false)

  type Payload = r: Reported | Mapped(r) witness BLANK

  function MappedFields(d: Description): Fields {
    (map f | f in d.others && f.Other? :: d.others[f]) + MemoFields(d) + CoreFields(d)
  }

  lemma CoreMapped(d: Description, f: Field)
    requires f in CORE
    ensures f in MappedFields(d) && MappedFields(d)[f] == CoreValue(d, f)
  {
    hide MemoFields, CoreValue;
  }

  lemma MemoMapped(d: Description)
    ensures var fields := MappedFields(d);
      && Memo in fields && fields[Memo] == Dict(ReadMemo(d).entries)
      && Parameters in fields && fields[Parameters] == Dict(ReadMemo(d).parameters)
      && (forall f :: f in LocalOnly() ==> f in fields)
  {
    hide CoreFields, LocalOnly, ReadMemo;
    CoreKeys(d);
  }

  lemma CoreKeys(d: Description)
    ensures CoreFields(d).Keys == CORE && Memo !in CoreFields(d) && Parameters !in CoreFields(d)
  {
    hide CoreValue;
  }

  lemma MissingExactly(d: Description)
    ensures MetadataMissing(Reported(MappedFields(d), d.memo.Some?)) <==> d.memo.None? || d.memo.value.entries == map[]
  {
    hide MappedFields, LocalOnly;
    MemoMapped(d);
  }

  lemma AllMapped(d: Description)
    ensures Mapped(Reported(MappedFields(d), d.memo.Some?))
  {
    hide MappedFields, LocalOnly, MetadataMissing;
    CoreMapped(d, UpdatedAt);
    CoreMapped(d, StartedAt);
    MemoMapped(d);
    MissingExactly(d);
  }

  function MapDescription(d: Description): (p: Payload)
    ensures Get(p.fields, UpdatedAt) == OptionalMoment(d.semanticUpdatedAt)
    ensures Get(p.fields, StartedAt) == OptionalMoment(StartedAtOf(d))
    ensures Get(p.fields, State) == Stage(StateAndClose(d).0)
    ensures MetadataMissing(p) <==> d.memo.None? || d.memo.value.entries == map[]
  {
    hide MappedFields, LocalOnly, Mapped, MetadataMissing, ReadMemo;
    CoreMapped(d, UpdatedAt);
    CoreMapped(d, StartedAt);
    CoreMapped(d, State);
    MissingExactly(d);
    AllMapped(d);
    Reported(MappedFields(d), d.memo.Some?)
  }

  /** The columns that the payload takes from the description as they are. */
  lemma ReportedColumns(d: Description)
    ensures var p := MapDescription(d).fields;
      && Get(p, WorkflowId) == Text(d.id) && Get(p, RunId) == Text(d.runId)
      && Get(p, Namespace) == Text(d.namespace) && Get(p, WorkflowType) == Text(d.workflowType)
      && Get(p, ClosedAt) == (if d.closeTime.Some? then Moment(d.closeTime.value) else Nothing)
      && Get(p, UpdatedAt) == (if d.semanticUpdatedAt.Some? then Moment(d.semanticUpdatedAt.value) else Nothing)
      && Get(p, CloseStatus) == (if StateAndClose(d).1.Some? then Closed(StateAndClose(d).1.value) else Nothing)
  {
    hide MappedFields, LocalOnly, StateAndClose, StartedAtOf;
    CoreMapped(d, WorkflowId);
    CoreMapped(d, RunId);
    CoreMapped(d, Namespace);
    CoreMapped(d, WorkflowType);
    CoreMapped(d, ClosedAt);
    CoreMapped(d, CloseStatus);
  }

  /** What the payload takes from the memo, which counts for nothing if it failed to decode or is empty. */
  lemma MemoColumns(d: Description, f: Field)
    ensures var p := MapDescription(d).fields;
      var usable := d.memo.Some? && d.memo.value.entries != map[];
      && Get(p, Memo) == Dict(if usable then d.memo.value.entries else map[])
      && Get(p, Parameters) == Dict(if usable then d.memo.value.parameters else map[])
      && (f in LocalOnly() ==> Get(p, f) == if usable && f in d.memo.value.local then d.memo.value.local[f] else Nothing)
      && (f.Other? ==> Get(p, f) == Get(d.others, f))
  {
    hide MappedFields, LocalOnly;
    MemoMapped(d);
    UncoreMapped(d, f);
    ColumnClasses(f);
  }

  lemma UncoreMapped(d: Description, f: Field)
    ensures f in LocalOnly() ==> f in MappedFields(d) && MappedFields(d)[f] == Get(ReadMemo(d).local, f)
    ensures f.Other? ==> Get(MappedFields(d), f) == Get(d.others, f)
  {
    hide CoreFields, ReadMemo;
    CoreKeys(d);
    ColumnClasses(f);
    assert f in LocalOnly() || f.Other? ==> f !in CORE;
    assert f in LocalOnly() ==> f in MemoFields(d) && MemoFields(d)[f] == Get(ReadMemo(d).local, f);
    assert f.Other? ==> f !in LocalOnly() && f !in MemoFields(d);
  }

  /**
    Without a stamp of its own a workflow that is past its preparation started when its run was
    executed, or else when it was started, but not before the time it was scheduled for.
   */
  lemma StartedAtExactly(d: Description, base: real)
    requires d.semanticStartedAt.None? && (d.executionTime == Some(base) || (d.executionTime.None? && d.startTime == Some(base)))
    requires !StateAndClose(d).0.Scheduled? && !StateAndClose(d).0.Initializing? && !StateAndClose(d).0.WaitingOnDependencies?
    requires !StateAndClose(d).0.Planning? && !StateAndClose(d).0.AwaitingSlot?
    ensures StartedAtOf(d).Some?
    ensures var started := StartedAtOf(d).value;
      if d.scheduledFor.Some? && base < d.scheduledFor.value then started == d.scheduledFor.value else started == base
  {
    hide StateAndClose;
  }

  /** How each status of Temporal is shown while the workflow has stamped no state of its own. */
  lemma StatusWithoutDomainState(d: Description)
    requires d.domainState.None?
    ensures var (state, close) := StateAndClose(d);
      && (state == Completed && close == Some(ClosedCompleted) <==> d.status in {StatusCompleted, StatusContinuedAsNew})
      && (state == Failed && close == Some(ClosedFailed) <==> d.status == StatusFailed)
      && (state == Failed && close == Some(ClosedTerminated) <==> d.status == StatusTerminated)
      && (state == Failed && close == Some(ClosedTimedOut) <==> d.status == StatusTimedOut)
      && (state == Canceled && close == Some(ClosedCanceled) <==> d.status == StatusCanceled)
      && (state == Executing && close == None <==> d.status in {StatusRunning, UnknownStatus})
  {
  }

  /** A stamped state is shown while the workflow runs, and at its end if it is a terminal one, with the status that fits it. */
  lemma StampedState(d: Description, stamped: Lifecycle)
    requires d.domainState == Some(stamped)
    ensures d.status == StatusRunning ==> StateAndClose(d) == (stamped, None)
    ensures d.status == StatusCompleted && stamped in {NoCommit, Completed} ==> StateAndClose(d) == (stamped, Some(ClosedCompleted))
    ensures d.status == StatusCompleted && stamped == Failed ==> StateAndClose(d) == (Failed, Some(ClosedFailed))
    ensures d.status == StatusCompleted && stamped == Canceled ==> StateAndClose(d) == (Canceled, Some(ClosedCanceled))
    ensures d.status == StatusCompleted && stamped !in {NoCommit, Completed, Failed, Canceled} ==> StateAndClose(d) == (Completed, Some(ClosedCompleted))
    ensures d.status != StatusRunning && d.status != StatusCompleted ==> StateAndClose(d) == StateAndClose(d.(domainState := None))
  {
  }

  /** The columns that a sync without metadata may set, and those that the database keeps for itself. */
  lemma ColumnClasses(f: Field)
    ensures f in CORE <==>
      f.RunId? || f.State? || f.CloseStatus? || f.StartedAt? || f.UpdatedAt? || f.ClosedAt? || f.WorkflowId? || f.Namespace? || f.WorkflowType?
    ensures f in LocalOnly() <==>
      f.CreateIdempotencyKey? || f.LastUpdateIdempotencyKey? || f.LastUpdateResponse? || f.FinishOutcomeCode? || f.FinishSummaryJson?
  {
  }

  /** The states in which a workflow has not begun its work. */
  lemma PreWorkStates(state: Lifecycle)
    ensures state in PRE_WORK <==>
      state.Scheduled? || state.Initializing? || state.WaitingOnDependencies? || state.Planning? || state.AwaitingSlot?
  {
  }

  // ---------------------------------------------------------------- rows

  /** The columns that only the sync itself writes. */
  datatype Mark = Mark(version: int, syncedAt: real, isFresh: bool, error: Option<string>, temporalAuthoritative: bool)

  datatype Row = Row(fields: Fields, mark: Mark)

  datatype Store = Store(projection: Option<Row>, canonical: Option<Row>)

  function RowFields(row: Option<Row>): Fields {
    if row.Some? then row.value.fields else map[]
  }

  /** The value of the first row that has one. */
  function FirstSet(rows: seq<Fields>, f: Field): Value {
    if rows == [] then Nothing
    else if Get(rows[0], f) != Nothing then Get(rows[0], f)
    else FirstSet(rows[1..], f)
  }

  /** Where the source has one of the chosen fields, its value; elsewhere what was there. */
  function Overlay(base: Fields, source: Fields, chosen: set<Field>): Fields {
    base + map f | f in source && f in chosen :: source[f]
  }

  lemma OverlayStep(base: Fields, source: Fields, chosen: set<Field>, f: Field)
    ensures Overlay(base, source, chosen + {f}) == if f in source then Overlay(base, source, chosen)[f := source[f]] else Overlay(base, source, chosen)
  {
  }

  lemma OverlayNone(base: Fields, source: Fields)
    ensures Overlay(base, source, {}) == base
  {
  }

  /** The listed fields that the payload leaves unset and some row has. */
  function KeptValues(payload: Fields, listed: seq<Field>, rows: seq<Fields>): Fields {
    map f | f in listed && Get(payload, f) == Nothing && FirstSet(rows, f) != Nothing :: FirstSet(rows, f)
  }

  function Preserved(payload: Fields, listed: seq<Field>, rows: seq<Fields>): Fields {
    payload + KeptValues(payload, listed, rows)
  }

  function SemanticUpdatedAt(payload: Fields, s: Store, now: real): Value {
    if Get(payload, UpdatedAt) != Nothing then Get(payload, UpdatedAt)
    else if s.projection.Some? then Get(s.projection.value.fields, UpdatedAt)
    else if s.canonical.Some? then Get(s.canonical.value.fields, UpdatedAt)
    else if Get(payload, StartedAt) != Nothing then Get(payload, StartedAt)
    else Moment(now)
  }

  /** The payload as it is written: with an update time, and with local values Temporal does not know. */
  function FullPayload(p: Payload, s: Store, now: real): Fields {
    Preserved(p.fields[UpdatedAt := SemanticUpdatedAt(p.fields, s, now)], LocalOnly(), [RowFields(s.projection), RowFields(s.canonical)])
  }

  /** Temporal's entries over those of the canonical row; `f` is the memo or the parameters column. */
  function Merged(payload: Fields, canonical: Option<Row>, f: Field): Value {
    Dict(EntriesOf(Get(RowFields(canonical), f)) + EntriesOf(Get(payload, f)))
  }

  /** The fields a sync sets on an existing row. */
  function WrittenFields(payload: Fields, missing: bool): set<Field> {
    if missing then payload.Keys * CORE else payload.Keys
  }

  function WithMerges(payload: Fields, canonical: Option<Row>): Fields {
    payload[Parameters := Merged(payload, canonical, Parameters)][Memo := Merged(payload, canonical, Memo)]
  }

  function ProjectionFields(s: Store, payload: Fields, missing: bool): Fields {
    var base := if s.projection.None? then payload else Overlay(s.projection.value.fields, payload, WrittenFields(payload, missing));
    if s.canonical.Some? || !missing
    then base[Parameters := Merged(payload, s.canonical, Parameters)][Memo := Merged(payload, s.canonical, Memo)]
    else base
  }

  function CanonicalFields(row: Row, payload: Fields, missing: bool): Fields {
    Overlay(row.fields, WithMerges(payload, Some(row)), WrittenFields(payload, missing))
  }

  function NextMark(s: Store, now: real): Mark {
    var previous := if s.projection.Some? then s.projection.value.mark.version else 0;
    Mark(if previous + 1 > 1 then previous + 1 else 1, now, true, None, true)
  }

  /** A new projection has version one, a synced one the next version, and never one below that; it is fresh as of the sync. */
  lemma MarkExactly(s: Store, now: real)
    ensures var mark := NextMark(s, now);
      && (s.projection.None? ==> mark.version == 1)
      && (s.projection.Some? && 0 <= s.projection.value.mark.version ==> mark.version == s.projection.value.mark.version + 1)
      && (s.projection.Some? && s.projection.value.mark.version < 0 ==> mark.version == 1)
      && mark.syncedAt == now && mark.isFresh && mark.error == None && mark.temporalAuthoritative
  {
  }

  /** Both rows after one sync. */
  function Synced(s: Store, p: Payload, now: real): (after: Store)
    ensures after.projection.Some? && after.canonical.Some? == s.canonical.Some?
  {
    var payload := FullPayload(p, s, now);
    Store(
      Some(Row(ProjectionFields(s, payload, MetadataMissing(p)), NextMark(s, now))),
      if s.canonical.None? then None
      else Some(Row(CanonicalFields(s.canonical.value, payload, MetadataMissing(p)), s.canonical.value.mark))
    )
  }

  lemma PreservedKeys(payload: Fields, listed: seq<Field>, rows: seq<Fields>)
    ensures payload.Keys <= Preserved(payload, listed, rows).Keys
  {
  }

  lemma UpdateTimeIsWritten(row: Row, payload: Fields, missing: bool)
    requires UpdatedAt in payload
    ensures CanonicalFields(row, payload, missing)[UpdatedAt := payload[UpdatedAt]] == CanonicalFields(row, payload, missing)
  {
  }

  // ------------------------------------------------- the rows as the code keeps them

  class Record {
    var fields: Fields
    var mark: Mark

    constructor (fields: Fields, mark: Mark)
      ensures this.fields == fields && this.mark == mark
    {
      this.fields := fields;
      this.mark := mark;
    }
  }

  function View(record: Record?): Option<Row>
    reads record
  {
    if record == null then None else Some(Row(record.fields, record.mark))
  }

  class Session {
    var projection: Record?
    var canonical: Record?

    constructor (projection: Record?, canonical: Record?)
      requires projection != null ==> projection != canonical
      ensures Valid() && this.projection == projection && this.canonical == canonical
    {
      this.projection := projection;
      this.canonical := canonical;
    }

    /** The two tables never share a row object. */
    predicate Valid()
      reads this
    {
      projection != null ==> projection != canonical
    }

    function Contents(): Store
      reads this, projection, canonical
    {
      Store(View(projection), View(canonical))
    }

    /** One sync of the execution that `d` describes; `now` is the sync time. */
    method Sync(d: Description, now: real)
      requires Valid()
      modifies this`projection, projection, canonical
      ensures Valid()
      ensures Contents() == Synced(old(Contents()), MapDescription(d), now)
      ensures old(projection) != null ==> projection == old(projection)
      ensures old(projection) == null ==> fresh(projection)
    {
      hide FullPayload, ProjectionFields, Overlay, MapDescription;
      ghost var before := Contents();
      var mapped := MapDescription(d);
      var payload := CompletePayload(mapped, now);
      var missing := MetadataMissing(mapped);
      UpdateProjection(payload, missing, now);
      if canonical != null {
        var updatedAt := payload[UpdatedAt];
        AssignCanonical(canonical, payload, missing);
        canonical.fields := canonical.fields[UpdatedAt := updatedAt];
        UpdateTimeIsWritten(before.canonical.value, payload, missing);
      }
    }

    /** The mapped payload with its update time and the local values it leaves unset. */
    method CompletePayload(mapped: Payload, now: real) returns (payload: Fields)
      ensures payload == FullPayload(mapped, Contents(), now)
      ensures UpdatedAt in payload && Memo in payload && Parameters in payload
    {
      hide Preserved, LocalOnly;
      payload := mapped.fields;
      var updatedAt := payload[UpdatedAt];
      if updatedAt == Nothing {
        if projection != null {
          updatedAt := Get(projection.fields, UpdatedAt);
        } else if canonical != null {
          updatedAt := Get(canonical.fields, UpdatedAt);
        } else {
          updatedAt := if payload[StartedAt] != Nothing then payload[StartedAt] else Moment(now);
        }
      }
      payload := payload[UpdatedAt := updatedAt];
      PreservedKeys(payload, LocalOnly(), [RowFields(View(projection)), RowFields(View(canonical))]);
      payload := PreserveFields(payload, LocalOnly(), [projection, canonical], [RowFields(View(projection)), RowFields(View(canonical))]);
    }

    /** The projection half of a sync; the canonical row is only read. */
    method UpdateProjection(payload: Fields, missing: bool, now: real)
      requires Valid() && UpdatedAt in payload
      modifies this`projection, projection
      ensures Valid()
      ensures View(projection) == Some(Row(ProjectionFields(old(Contents()), payload, missing), NextMark(old(Contents()), now)))
      ensures old(projection) != null ==> projection == old(projection)
      ensures old(projection) == null ==> fresh(projection)
      ensures View(canonical) == old(View(canonical))
    {
      ghost var before := Contents();
      var previous := if projection != null then projection.mark.version else 0;
      if projection == null {
        projection := new Record(payload, Mark(1, now, true, None, true));
      } else {
        AssignFields(projection, payload, missing);
        projection.fields := projection.fields[UpdatedAt := payload[UpdatedAt]];
        assert projection.fields == Overlay(before.projection.value.fields, payload, WrittenFields(payload, missing));
        projection.mark := Mark(if previous + 1 > 1 then previous + 1 else 1, now, true, None, true);
      }
      if canonical != null || !missing {
        projection.fields := projection.fields[Parameters := Merged(payload, View(canonical), Parameters)];
      }
      if canonical != null || !missing {
        projection.fields := projection.fields[Memo := Merged(payload, View(canonical), Memo)];
      }
    }
  }

  /** Fills the listed fields that the payload leaves unset from the first record that has them. */
  method PreserveFields(payload: Fields, listed: seq<Field>, records: seq<Record?>, ghost rows: seq<Fields>) returns (full: Fields)
    requires |rows| == |records| && forall j :: 0 <= j < |rows| ==> rows[j] == RowFields(View(records[j]))
    ensures full == Preserved(payload, listed, rows)
  {
    hide Overlay, KeptValues, FirstSet, View;
    full := payload;
    ghost var kept := KeptValues(payload, listed, rows);
    ghost var done: set<Field> := {};
    OverlayNone(payload, kept);
    for i := 0 to |listed|
      invariant forall f :: f in listed[..i] ==> f in done
      invariant full == Overlay(payload, kept, done)
    {
      var field := listed[i];
      OverlayStep(payload, kept, done, field);
      KeptValueAt(payload, listed, rows, done, field);
      done := done + {field};
      if Get(full, field) != Nothing {
        continue;
      }
      var preserved := FirstRecordValue(records, field, rows);
      if preserved != Nothing {
        full := full[field := preserved];
      }
    }
    KeptAll(payload, listed, rows, done);
  }

  lemma KeptValueAt(payload: Fields, listed: seq<Field>, rows: seq<Fields>, done: set<Field>, f: Field)
    requires f in listed
    ensures var kept := KeptValues(payload, listed, rows);
      && (f in kept <==> Get(payload, f) == Nothing && FirstSet(rows, f) != Nothing)
      && (f in kept ==> kept[f] == FirstSet(rows, f))
      && (Get(Overlay(payload, kept, done), f) == if f in kept && f in done then kept[f] else Get(payload, f))
  {
  }

  lemma KeptAll(payload: Fields, listed: seq<Field>, rows: seq<Fields>, done: set<Field>)
    requires forall f :: f in listed ==> f in done
    ensures Overlay(payload, KeptValues(payload, listed, rows), done) == Preserved(payload, listed, rows)
  {
  }

  method FirstRecordValue(records: seq<Record?>, field: Field, ghost rows: seq<Fields>) returns (value: Value)
    requires |rows| == |records| && forall j :: 0 <= j < |rows| ==> rows[j] == RowFields(View(records[j]))
    ensures value == FirstSet(rows, field)
  {
    for j := 0 to |records|
      invariant FirstSet(rows, field) == FirstSet(rows[j..], field)
    {
      assert rows[j..][1..] == rows[j + 1..];
      if records[j] == null {
        continue;
      }
      var preserved := Get(records[j].fields, field);
      if preserved != Nothing {
        return preserved;
      }
    }
    value := Nothing;
  }

  /** Sets every written field of the payload on a row. */
  method AssignFields(record: Record, payload: Fields, missing: bool)
    modifies record`fields
    ensures record.fields == Overlay(old(record.fields), payload, WrittenFields(payload, missing))
  {
    ghost var before := record.fields;
    ghost var done: set<Field> := {};
    var remaining := payload.Keys;
    OverlayNone(before, payload);
    while remaining != {}
      invariant remaining <= payload.Keys
      invariant done == WrittenFields(payload, missing) - remaining
      invariant record.fields == Overlay(before, payload, done)
      decreases remaining
    {
      var field :| field in remaining;
      remaining := remaining - {field};
      if missing && field !in CORE {
        continue;
      }
      OverlayStep(before, payload, done, field);
      done := done + {field};
      record.fields := record.fields[field := payload[field]];
    }
  }

  /** The same for the canonical row, whose memo and parameters are merged with what it held. */
  method AssignCanonical(record: Record, payload: Fields, missing: bool)
    requires Memo in payload && Parameters in payload
    modifies record`fields
    ensures record.fields == CanonicalFields(Row(old(record.fields), record.mark), payload, missing)
  {
    hide Merged, LocalOnly;
    ghost var before := Row(record.fields, record.mark);
    ghost var source := WithMerges(payload, Some(before));
    ghost var done: set<Field> := {};
    var remaining := payload.Keys;
    OverlayNone(before.fields, source);
    while remaining != {}
      invariant remaining <= payload.Keys && done !! remaining
      invariant done == WrittenFields(payload, missing) - remaining
      invariant record.fields == Overlay(before.fields, source, done)
      decreases remaining
    {
      var field :| field in remaining;
      remaining := remaining - {field};
      if missing && field !in CORE {
        continue;
      }
      OverlayStep(before.fields, source, done, field);
      done := done + {field};
      AssignCanonicalField(record, payload, field, before.fields);
    }
  }

  /** One field of the canonical row; the memo and the parameters are still as they were read. */
  method AssignCanonicalField(record: Record, payload: Fields, field: Field, ghost before: Fields)
    requires field in payload && Memo in payload && Parameters in payload
    requires field == Memo || field == Parameters ==> Get(record.fields, field) == Get(before, field)
    modifies record`fields
    ensures record.fields == old(record.fields)[field := WithMerges(payload, Some(Row(before, record.mark)))[field]]
  {
    if field == Memo || field == Parameters {
      record.fields := record.fields[field := Merged(payload, View(record), field)];
    } else {
      record.fields := record.fields[field := payload[field]];
    }
  }

  // ----------------------------------------------------------- one sync

  /** What the written payload holds, field by field. */
  lemma FullPayloadAt(p: Payload, s: Store, now: real, f: Field)
    ensures var mapped := p.fields;
      Get(FullPayload(p, s, now), f) ==
        if f == UpdatedAt then SemanticUpdatedAt(mapped, s, now)
        else if f in LocalOnly() then FirstSet([mapped, RowFields(s.projection), RowFields(s.canonical)], f)
        else Get(mapped, f)
    ensures f in FullPayload(p, s, now) <==> f in p.fields
  {
    hide Preserved, LocalOnly;
    var mapped := p.fields;
    var rows := [RowFields(s.projection), RowFields(s.canonical)];
    var timed := mapped[UpdatedAt := SemanticUpdatedAt(mapped, s, now)];
    assert ([mapped] + rows)[1..] == rows;
    assert [mapped] + rows == [mapped, RowFields(s.projection), RowFields(s.canonical)];
    PreservedAt(timed, LocalOnly(), rows, f);
  }

  lemma PreservedAt(payload: Fields, listed: seq<Field>, rows: seq<Fields>, f: Field)
    requires forall g :: g in listed ==> g in payload
    ensures Get(Preserved(payload, listed, rows), f) ==
      if f in listed && Get(payload, f) == Nothing then FirstSet(rows, f) else Get(payload, f)
    ensures f in Preserved(payload, listed, rows) <==> f in payload
  {
  }

  function ProjectionOf(s: Store, p: Payload, now: real): Fields {
    Synced(s, p, now).projection.value.fields
  }

  /** A field of the projection after a sync. */
  lemma ProjectionAt(s: Store, p: Payload, now: real, f: Field)
    ensures var payload := FullPayload(p, s, now);
      Get(ProjectionOf(s, p, now), f) ==
        if (f == Memo || f == Parameters) && (s.canonical.Some? || !MetadataMissing(p)) then Merged(payload, s.canonical, f)
        else if s.projection.None? || f in WrittenFields(payload, MetadataMissing(p)) then Get(payload, f)
        else Get(s.projection.value.fields, f)
    ensures var payload := FullPayload(p, s, now);
      f in ProjectionOf(s, p, now) <==>
        || ((f == Memo || f == Parameters) && (s.canonical.Some? || !MetadataMissing(p)))
        || (if s.projection.None? then f in payload else f in WrittenFields(payload, MetadataMissing(p)) || f in s.projection.value.fields)
  {
    hide FullPayload, Merged, Overlay, WrittenFields, MetadataMissing, CanonicalFields, LocalOnly;
    if s.projection.Some? {
      OverlayAt(s.projection.value.fields, FullPayload(p, s, now), WrittenFields(FullPayload(p, s, now), MetadataMissing(p)), f);
      WrittenAreSupplied(FullPayload(p, s, now), MetadataMissing(p));
    }
  }

  lemma OverlayAt(base: Fields, source: Fields, chosen: set<Field>, f: Field)
    ensures Get(Overlay(base, source, chosen), f) == if f in source && f in chosen then Get(source, f) else Get(base, f)
    ensures f in Overlay(base, source, chosen) <==> f in base || (f in source && f in chosen)
  {
  }

  lemma WrittenAreSupplied(payload: Fields, missing: bool)
    ensures WrittenFields(payload, missing) <= payload.Keys
  {
  }

  lemma CanonicalAt(s: Store, p: Payload, now: real, f: Field)
    requires s.canonical.Some?
    ensures var payload := FullPayload(p, s, now);
      Get(Synced(s, p, now).canonical.value.fields, f) ==
        if f !in WrittenFields(payload, MetadataMissing(p)) then Get(s.canonical.value.fields, f)
        else if f == Memo || f == Parameters then Merged(payload, s.canonical, f)
        else Get(payload, f)
    ensures f in Synced(s, p, now).canonical.value.fields <==>
      f in s.canonical.value.fields || f in WrittenFields(FullPayload(p, s, now), MetadataMissing(p))
  {
    hide FullPayload, Overlay, WrittenFields, Merged;
    var payload := FullPayload(p, s, now);
    FullPayloadAt(p, s, now, Memo);
    FullPayloadAt(p, s, now, Parameters);
    CanonicalFieldsAt(s.canonical.value, payload, MetadataMissing(p), f);
  }

  lemma CanonicalFieldsAt(row: Row, payload: Fields, missing: bool, f: Field)
    requires Memo in payload && Parameters in payload
    ensures Get(CanonicalFields(row, payload, missing), f) ==
      if f !in WrittenFields(payload, missing) then Get(row.fields, f)
      else if f == Memo || f == Parameters then Merged(payload, Some(row), f)
      else Get(payload, f)
    ensures f in CanonicalFields(row, payload, missing) <==> f in row.fields || f in WrittenFields(payload, missing)
  {
    hide Merged;
  }

  // ---------------------------------------------------- syncing once more

  lemma FirstOfThree(a: Fields, b: Fields, c: Fields, f: Field)
    ensures FirstSet([a, b, c], f) == if Get(a, f) != Nothing then Get(a, f) else if Get(b, f) != Nothing then Get(b, f) else Get(c, f)
  {
    assert [a, b, c][1..] == [b, c] && [b, c][1..] == [c];
    assert FirstSet([c], f) == Get(c, f);
  }

  /** The second sync of one description writes what the first one wrote. */
  lemma PayloadAgain(s: Store, p: Payload, first: real, second: real, f: Field)
    requires f in WrittenFields(FullPayload(p, s, first), MetadataMissing(p))
    ensures Get(FullPayload(p, Synced(s, p, first), second), f) == Get(FullPayload(p, s, first), f)
  {
    hide FullPayload, Synced, LocalOnly;
    var after := Synced(s, p, first);
    FullPayloadAt(p, s, first, f);
    FullPayloadAt(p, after, second, f);
    ProjectionAt(s, p, first, f);
    var mapped := p.fields;
    FirstOfThree(mapped, RowFields(s.projection), RowFields(s.canonical), f);
    FirstOfThree(mapped, RowFields(after.projection), RowFields(after.canonical), f);
    if s.canonical.Some? {
      CanonicalAt(s, p, first, f);
    }
  }

  lemma SameFields(a: Fields, b: Fields)
    requires forall f :: (f in a <==> f in b) && Get(a, f) == Get(b, f)
    ensures a == b
  {
    forall f | f in a
      ensures f in b && a[f] == b[f]
    {
      assert Get(a, f) == Get(b, f);
    }
  }

  /** Merging the same entries again changes nothing. */
  lemma MergedAgain(s: Store, p: Payload, first: real, second: real, f: Field)
    requires f == Memo || f == Parameters
    requires s.canonical.Some? || !MetadataMissing(p)
    ensures var after := Synced(s, p, first);
      Merged(FullPayload(p, after, second), after.canonical, f) == Merged(FullPayload(p, s, first), s.canonical, f)
  {
    hide FullPayload, Synced, LocalOnly;
    var after := Synced(s, p, first);
    FullPayloadAt(p, s, first, f);
    FullPayloadAt(p, after, second, f);
    if s.canonical.Some? {
      CanonicalAt(s, p, first, f);
    }
  }

  lemma ProjectionAgain(s: Store, p: Payload, first: real, second: real)
    ensures ProjectionOf(Synced(s, p, first), p, second) == ProjectionOf(s, p, first)
  {
    hide FullPayload, Synced, LocalOnly, Merged;
    var after := Synced(s, p, first);
    forall f
      ensures f in ProjectionOf(after, p, second) <==> f in ProjectionOf(s, p, first)
      ensures Get(ProjectionOf(after, p, second), f) == Get(ProjectionOf(s, p, first), f)
    {
      FieldAgain(s, p, first, second, f);
    }
    SameFields(ProjectionOf(after, p, second), ProjectionOf(s, p, first));
  }

  lemma FieldAgain(s: Store, p: Payload, first: real, second: real, f: Field)
    ensures f in ProjectionOf(Synced(s, p, first), p, second) <==> f in ProjectionOf(s, p, first)
    ensures Get(ProjectionOf(Synced(s, p, first), p, second), f) == Get(ProjectionOf(s, p, first), f)
  {
    hide FullPayload, Synced, LocalOnly, Merged;
    var after := Synced(s, p, first);
    ProjectionAt(s, p, first, f);
    ProjectionAt(after, p, second, f);
    FullPayloadAt(p, s, first, f);
    FullPayloadAt(p, after, second, f);
    if f in WrittenFields(FullPayload(p, s, first), MetadataMissing(p)) {
      PayloadAgain(s, p, first, second, f);
    }
    if (f == Memo || f == Parameters) && (s.canonical.Some? || !MetadataMissing(p)) {
      MergedAgain(s, p, first, second, f);
    }
  }

  lemma CanonicalAgain(s: Store, p: Payload, first: real, second: real)
    requires s.canonical.Some?
    ensures Synced(Synced(s, p, first), p, second).canonical == Synced(s, p, first).canonical
  {
    hide FullPayload, LocalOnly, Merged, CanonicalFields, ProjectionFields;
    var after := Synced(s, p, first);
    var again := Synced(after, p, second);
    forall f
      ensures f in again.canonical.value.fields <==> f in after.canonical.value.fields
      ensures Get(again.canonical.value.fields, f) == Get(after.canonical.value.fields, f)
    {
      CanonicalFieldAgain(s, p, first, second, f);
    }
    SameFields(again.canonical.value.fields, after.canonical.value.fields);
  }

  lemma CanonicalFieldAgain(s: Store, p: Payload, first: real, second: real, f: Field)
    requires s.canonical.Some?
    ensures var after := Synced(s, p, first);
      var again := Synced(after, p, second);
      && (f in again.canonical.value.fields <==> f in after.canonical.value.fields)
      && Get(again.canonical.value.fields, f) == Get(after.canonical.value.fields, f)
  {
    hide FullPayload, Synced, LocalOnly, Merged;
    var after := Synced(s, p, first);
    CanonicalAt(s, p, first, f);
    CanonicalAt(after, p, second, f);
    FullPayloadAt(p, s, first, f);
    FullPayloadAt(p, after, second, f);
    if f in WrittenFields(FullPayload(p, s, first), MetadataMissing(p)) {
      PayloadAgain(s, p, first, second, f);
      if f == Memo || f == Parameters {
        MergedAgain(s, p, first, second, f);
      }
    }
  }

  /** Syncing one description twice in a row changes only the version and the sync time. */
  lemma SyncTwice(s: Store, p: Payload, first: real, second: real)
    ensures var once := Synced(s, p, first);
      Synced(once, p, second) ==
        once.(projection := Some(once.projection.value.(mark := once.projection.value.mark.(version := once.projection.value.mark.version + 1, syncedAt := second))))
  {
    hide Synced, ProjectionOf;
    ProjectionAgain(s, p, first, second);
    if s.canonical.Some? {
      CanonicalAgain(s, p, first, second);
    }
    SyncedParts(s, p, first);
    SyncedParts(Synced(s, p, first), p, second);
  }

  lemma SyncedParts(s: Store, p: Payload, now: real)
    ensures Synced(s, p, now).projection == Some(Row(ProjectionOf(s, p, now), NextMark(s, now)))
    ensures s.canonical.None? ==> Synced(s, p, now).canonical.None?
  {
    hide FullPayload, ProjectionFields, CanonicalFields;
  }

  // -------------------------------------------------------- runs of syncs

  datatype Refresh = Refresh(p: Payload, at: real)

  function RunSyncs(s: Store, syncs: seq<Refresh>): (after: Store)
    ensures after.canonical.Some? == s.canonical.Some?
    ensures syncs != [] || s.projection.Some? ==> after.projection.Some?
  {
    if syncs == [] then s else
      var last := syncs[|syncs| - 1];
      Synced(RunSyncs(s, syncs[..|syncs| - 1]), last.p, last.at)
  }

  /** What Temporal supplies for the memo or the parameters column. */
  function Supplied(p: Payload, f: Field): Entries {
    EntriesOf(Get(p.fields, f))
  }

  function SuppliedBy(syncs: seq<Refresh>, f: Field): Entries {
    if syncs == [] then map[] else SuppliedBy(syncs[..|syncs| - 1], f) + Supplied(syncs[|syncs| - 1].p, f)
  }

  function Held(row: Option<Row>, f: Field): Entries {
    EntriesOf(Get(RowFields(row), f))
  }

  lemma MissingSuppliesNothing(p: Payload, f: Field)
    requires MetadataMissing(p) && (f == Memo || f == Parameters)
    ensures Supplied(p, f) == map[]
  {
    hide LocalOnly;
  }

  /** One sync of a row with a canonical record adds Temporal's entries to it, and the projection mirrors the outcome. */
  lemma MergeStep(s: Store, p: Payload, now: real, f: Field)
    requires s.canonical.Some? && (f == Memo || f == Parameters)
    ensures var after := Synced(s, p, now);
      && Held(after.canonical, f) == Held(s.canonical, f) + Supplied(p, f)
      && Held(after.projection, f) == Held(after.canonical, f)
  {
    hide FullPayload, Synced, LocalOnly;
    CanonicalAt(s, p, now, f);
    ProjectionAt(s, p, now, f);
    FullPayloadAt(p, s, now, f);
    if MetadataMissing(p) {
      MissingSuppliesNothing(p, f);
    }
  }

  lemma MergeAssociates(a: Entries, b: Entries, c: Entries)
    ensures (a + b) + c == a + (b + c)
  {
  }

  /** Over any run the canonical memo and parameters are the original ones with everything Temporal ever supplied on top. */
  lemma {:induction false} CanonicalHistory(s: Store, syncs: seq<Refresh>, f: Field)
    requires s.canonical.Some? && (f == Memo || f == Parameters)
    ensures var after := RunSyncs(s, syncs);
      && Held(after.canonical, f) == Held(s.canonical, f) + SuppliedBy(syncs, f)
      && (syncs != [] ==> Held(after.projection, f) == Held(after.canonical, f))
  {
    hide Synced, Supplied, Held;
    if syncs != [] {
      var n := |syncs| - 1;
      CanonicalHistory(s, syncs[..n], f);
      MergeStep(RunSyncs(s, syncs[..n]), syncs[n].p, syncs[n].at, f);
      MergeAssociates(Held(s.canonical, f), SuppliedBy(syncs[..n], f), Supplied(syncs[n].p, f));
    }
  }

  /** A key has the value of the last sync that supplied it. */
  lemma {:induction false} SuppliedByLast(syncs: seq<Refresh>, f: Field, k: string, i: nat)
    requires i < |syncs| && k in Supplied(syncs[i].p, f)
    requires forall j :: i < j < |syncs| ==> k !in Supplied(syncs[j].p, f)
    ensures k in SuppliedBy(syncs, f) && SuppliedBy(syncs, f)[k] == Supplied(syncs[i].p, f)[k]
  {
    hide Supplied;
    if i < |syncs| - 1 {
      SuppliedByLast(syncs[..|syncs| - 1], f, k, i);
    }
  }

  lemma {:induction false} NeverSupplied(syncs: seq<Refresh>, f: Field, k: string)
    requires forall j :: 0 <= j < |syncs| ==> k !in Supplied(syncs[j].p, f)
    ensures k !in SuppliedBy(syncs, f)
  {
    hide Supplied;
    if syncs != [] {
      NeverSupplied(syncs[..|syncs| - 1], f, k);
    }
  }

  /** No key of a canonical record is ever lost; the last supplied value wins, and an unsupplied key keeps its own. */
  lemma KeysSurviveRuns(s: Store, syncs: seq<Refresh>, f: Field, k: string, i: int)
    requires s.canonical.Some? && (f == Memo || f == Parameters)
    requires -1 <= i < |syncs| && (0 <= i ==> k in Supplied(syncs[i].p, f))
    requires forall j :: i < j < |syncs| ==> k !in Supplied(syncs[j].p, f)
    ensures var held := Held(RunSyncs(s, syncs).canonical, f);
      if 0 <= i then k in held && held[k] == Supplied(syncs[i].p, f)[k]
      else (k in held <==> k in Held(s.canonical, f)) && (k in held ==> held[k] == Held(s.canonical, f)[k])
  {
    hide Supplied;
    CanonicalHistory(s, syncs, f);
    if 0 <= i {
      SuppliedByLast(syncs, f, k, i);
    } else {
      NeverSupplied(syncs, f, k);
    }
  }

  /** Without a canonical record the memo is replaced: a key survives exactly if the sync had no metadata or supplies the key. */
  lemma WithoutCanonicalKeysAreLost(s: Store, p: Payload, now: real, f: Field, k: string)
    requires s.canonical.None? && s.projection.Some? && k in Held(s.projection, f) && (f == Memo || f == Parameters)
    ensures k in Held(Synced(s, p, now).projection, f) <==> MetadataMissing(p) || k in Supplied(p, f)
  {
    hide FullPayload, Synced, LocalOnly;
    ProjectionAt(s, p, now, f);
    FullPayloadAt(p, s, now, f);
  }

  /** Without a canonical record, a memo key of the projection is dropped by a sync whose memo does not have it. */
  lemma KeyIsDropped(mark: Mark, now: real) returns (s: Store, p: Payload)
    ensures s.canonical.None? && "agentRunId" in Held(s.projection, Memo) && !MetadataMissing(p)
    ensures "agentRunId" !in Held(Synced(s, p, now).projection, Memo)
  {
    p := Reported(BLANK.fields[Memo := Dict(map["title" := ""])], true);
    s := Store(Some(Row(map[Memo := Dict(map["agentRunId" := ""])], mark)), None);
    assert "title" in EntriesOf(Get(p.fields, Memo)) && "agentRunId" !in Supplied(p, Memo);
    WithoutCanonicalKeysAreLost(s, p, now, Memo, "agentRunId");
  }

  /** A local-only column that is set stays set in both rows. */
  lemma LocalStep(s: Store, p: Payload, now: real, f: Field)
    requires f in LocalOnly()
    ensures var after := Synced(s, p, now);
      && (Get(RowFields(s.projection), f) != Nothing ==> Get(RowFields(after.projection), f) != Nothing)
      && (Get(RowFields(s.canonical), f) != Nothing ==> Get(RowFields(after.canonical), f) != Nothing)
  {
    hide FullPayload, Synced, LocalOnly, Merged;
    FullPayloadAt(p, s, now, f);
    FirstOfThree(p.fields, RowFields(s.projection), RowFields(s.canonical), f);
    ProjectionAt(s, p, now, f);
    if s.canonical.Some? {
      CanonicalAt(s, p, now, f);
    }
  }

  lemma {:induction false} LocalStaysSet(s: Store, syncs: seq<Refresh>, f: Field)
    requires f in LocalOnly()
    ensures var after := RunSyncs(s, syncs);
      && (Get(RowFields(s.projection), f) != Nothing ==> Get(RowFields(after.projection), f) != Nothing)
      && (Get(RowFields(s.canonical), f) != Nothing ==> Get(RowFields(after.canonical), f) != Nothing)
  {
    hide Synced, LocalOnly;
    if syncs != [] {
      var n := |syncs| - 1;
      LocalStaysSet(s, syncs[..n], f);
      LocalStep(RunSyncs(s, syncs[..n]), syncs[n].p, syncs[n].at, f);
    }
  }

  lemma UpdateTimeStep(s: Store, p: Payload, now: real)
    ensures var after := Synced(s, p, now);
      && Get(RowFields(after.projection), UpdatedAt) == SemanticUpdatedAt(p.fields, s, now)
      && (s.canonical.Some? ==> Get(RowFields(after.canonical), UpdatedAt) == Get(RowFields(after.projection), UpdatedAt))
  {
    hide FullPayload, Synced, LocalOnly, Merged;
    FullPayloadAt(p, s, now, UpdatedAt);
    ProjectionAt(s, p, now, UpdatedAt);
    if s.canonical.Some? {
      CanonicalAt(s, p, now, UpdatedAt);
    }
  }

  /** Syncs that carry no update time of their own never move the projection's, and both rows always agree on it. */
  lemma {:induction false} UpdateTimeStays(s: Store, syncs: seq<Refresh>)
    requires s.projection.Some?
    requires forall i :: 0 <= i < |syncs| ==> Get(syncs[i].p.fields, UpdatedAt) == Nothing
    ensures Get(RowFields(RunSyncs(s, syncs).projection), UpdatedAt) == Get(RowFields(s.projection), UpdatedAt)
    ensures s.canonical.Some? && syncs != [] ==>
      Get(RowFields(RunSyncs(s, syncs).canonical), UpdatedAt) == Get(RowFields(s.projection), UpdatedAt)
  {
    hide Synced, LocalOnly;
    if syncs != [] {
      var n := |syncs| - 1;
      UpdateTimeStays(s, syncs[..n]);
      UpdateTimeStep(RunSyncs(s, syncs[..n]), syncs[n].p, syncs[n].at);
    }
  }
}
