/**
  Idempotent submission of container jobs: the sequential service, the same protocol with
  its reads and writes interleaved between any number of sessions, and cancellation.
 */
module ContainerSubmit {
  import opened Outcomes

  /** What the unique constraint identifies a job by. */
  datatype Slot = Slot(ownerType: string, ownerId: string, idempotencyKey: string)

  type Request = string

  datatype JobState = Queued | Working(phase: string) | Canceling | Succeeded | Failed | Canceled | TimedOut | Rejected

  datatype TerminalOutcome = TerminalOutcome(failureClass: string, message: string)

  const TEMPORAL_START := "temporal_start"

  const START_FAILURE := TerminalOutcome(TEMPORAL_START, "Temporal workflow start failed before the durable handoff completed.")

  datatype JobRow = JobRow(jobId: string, request: Request, state: JobState, terminal: Option<TerminalOutcome>, cancelKey: Option<string>)

  function NewRow(jobId: string, request: Request): JobRow {
    JobRow(jobId, request, Queued, None, None)
  }

  predicate IsTerminal(state: JobState) {
    state.Succeeded? || state.Failed? || state.Canceled? || state.TimedOut? || state.Rejected?
  }

  /** A failed Temporal start that the next exact replay may recover from. */
  predicate Recovering(row: JobRow) {
    row.state.Failed? && row.terminal.Some? && row.terminal.value.failureClass == TEMPORAL_START
  }

  /** The terminal record of an exact replay, which a failing restart must not overwrite. */
  predicate Preserved(row: JobRow, foundByReplay: bool) {
    foundByReplay && !Recovering(row) && IsTerminal(row.state)
  }

  function Requeued(row: JobRow): JobRow {
    row.(state := Queued, terminal := None)
  }

  function StartFailed(row: JobRow): JobRow {
    row.(state := Failed, terminal := Some(START_FAILURE))
  }

  /** A session writes only the columns that it sets to something else than it read. */
  function StartFailedOver(current: JobRow, read: JobRow): JobRow {
    current.(
      state := if read.state == Failed then current.state else Failed,
      terminal := if read.terminal == Some(START_FAILURE) then current.terminal else Some(START_FAILURE))
  }

  predicate SameJob(a: JobRow, b: JobRow) {
    a.jobId == b.jobId && a.request == b.request
  }

  // ------------------------------------------------------------ sequential

  /** What admission control says before any record is touched. */
  datatype Admission = Admitted | ImageDenied | SourceNotConfigured

  datatype SubmitError = AuthorizationDenied | ImageSourceNotConfigured | IdempotencyConflict | StartError

  datatype Accepted = Accepted(jobId: string, replayed: bool)

  /** The row that an undisturbed submission leaves in its slot. */
  function SubmittedRow(existing: Option<JobRow>, request: Request, freshId: string, starts: bool): JobRow {
    match existing
    case None => if starts then NewRow(freshId, request) else StartFailed(NewRow(freshId, request))
    case Some(row) =>
      if row.request != request then row
      else if Recovering(row) then (if starts then Requeued(row) else StartFailed(row))
      else if starts || IsTerminal(row.state) then row
      else StartFailed(row)
  }

  class JobRecord {
    const jobId: string
    const request: Request
    var state: JobState
    var terminal: Option<TerminalOutcome>
    var cancelKey: Option<string>

    constructor (jobId: string, request: Request)
      ensures Row() == NewRow(jobId, request)
    {
      this.jobId := jobId;
      this.request := request;
      state := Queued;
      terminal := None;
      cancelKey := None;
    }

    function Row(): JobRow
      reads this
    {
      JobRow(jobId, request, state, terminal, cancelKey)
    }
  }

  class JobService {
    var records: map<Slot, JobRecord>
    /** Cancellation signals sent to running workflows. */
    var signals: seq<string>

    constructor ()
      ensures records == map[] && signals == []
    {
      records := map[];
      signals := [];
    }

    ghost predicate Separate()
      reads this
    {
      forall a, b :: a in records && b in records && records[a] == records[b] ==> a == b
    }

    function RowAt(slot: Slot): Option<JobRow>
      reads this, records.Values
    {
      if slot in records then Some(records[slot].Row()) else None
    }

    /** `starts` says whether the Temporal start that ends the call succeeds. */
    method Submit(slot: Slot, request: Request, admission: Admission, freshId: string, starts: bool) returns (r: Result<Accepted, SubmitError>)
      requires Separate()
      modifies this`records, records.Values
      ensures Separate()
      ensures admission.ImageDenied? ==> r == Err(AuthorizationDenied)
      ensures admission.SourceNotConfigured? ==> r == Err(ImageSourceNotConfigured)
      ensures !admission.Admitted? ==> records == old(records) && forall s :: s in records ==> RowAt(s) == old(RowAt(s))
      ensures admission.Admitted? ==>
        && RowAt(slot) == Some(SubmittedRow(old(RowAt(slot)), request, freshId, starts))
        && records.Keys == old(records.Keys) + {slot}
        && (forall s :: s in old(records) ==> records[s] == old(records[s]))
        && (forall s :: s in old(records) && s != slot ==> RowAt(s) == old(RowAt(s)))
      ensures admission.Admitted? ==>
        if slot in old(records) && old(records[slot].request) != request then r == Err(IdempotencyConflict)
        else if !starts then r == Err(StartError)
        else r == Ok(Accepted(RowAt(slot).value.jobId, slot in old(records)))
    {
      match admission {
        case ImageDenied => return Err(AuthorizationDenied);
        case SourceNotConfigured => return Err(ImageSourceNotConfigured);
        case Admitted =>
      }
      var found := slot in records;
      var record;
      if found {
        record := records[slot];
        if record.request != request {
          return Err(IdempotencyConflict);
        }
      } else {
        record := new JobRecord(freshId, request);
        records := records[slot := record];
      }
      var recovering := record.state.Failed? && record.terminal.Some? && record.terminal.value.failureClass == TEMPORAL_START;
      var preserve := found && !recovering && IsTerminal(record.state);
      if recovering {
        record.state := Queued;
        record.terminal := None;
      }
      if !starts {
        if !preserve {
          record.state := Failed;
          record.terminal := Some(START_FAILURE);
        }
        return Err(StartError);
      }
      r := Ok(Accepted(record.jobId, found));
    }

    /** Returns the reported state, whether the job was still running, and whether the key was seen before. */
    method Cancel(slot: Slot, key: string) returns (r: Option<(JobState, bool, bool)>)
      requires Separate()
      modifies this`signals, records.Values
      ensures r.None? <==> slot !in records
      ensures slot !in records ==> signals == old(signals)
      ensures slot in records ==>
        var before := old(RowAt(slot)).value;
        && RowAt(slot) == Some(CanceledRow(before, key))
        && signals == old(signals) + (if Signals(before, key) then [before.jobId] else [])
        && r == Some((CanceledRow(before, key).state, !IsTerminal(before.state), before.cancelKey == Some(key)))
      ensures forall s :: s in records && s != slot ==> RowAt(s) == old(RowAt(s))
    {
      if slot !in records {
        return None;
      }
      var record := records[slot];
      var replayed := record.cancelKey == Some(key);
      var terminal := IsTerminal(record.state);
      if !terminal && !replayed {
        record.cancelKey := Some(key);
        record.state := Canceling;
        signals := signals + [record.jobId];
      }
      r := Some((record.state, !terminal, replayed));
    }
  }

  predicate Signals(row: JobRow, key: string) {
    !IsTerminal(row.state) && row.cancelKey != Some(key)
  }

  function CanceledRow(row: JobRow, key: string): JobRow {
    if Signals(row, key) then row.(state := Canceling, cancelKey := Some(key)) else row
  }

  /** The same decision taken on what was read, written over what is stored by then. */
  function CanceledOver(current: JobRow, read: JobRow, key: string): JobRow {
    if Signals(read, key)
    then current.(state := if read.state == Canceling then current.state else Canceling, cancelKey := Some(key))
    else current
  }

  /** Cancelling again with the same key changes nothing and signals nothing; a terminal job is never disturbed. */
  lemma CancelIsIdempotent(row: JobRow, key: string)
    ensures CanceledRow(CanceledRow(row, key), key) == CanceledRow(row, key)
    ensures !Signals(CanceledRow(row, key), key)
    ensures IsTerminal(row.state) <==> IsTerminal(CanceledRow(row, key).state)
    ensures SameJob(row, CanceledRow(row, key))
  {
  }

  /**
    An exact replay leaves a terminal record exactly as it was, whether the Temporal start
    succeeds or raises; only a failed Temporal start is taken up again.
   */
  lemma TerminalReplayPreserved(row: JobRow, request: Request, freshId: string, starts: bool)
    requires row.state in {Succeeded, Failed, Canceled, TimedOut, Rejected}
    ensures var restartable := row.state == Failed && row.terminal.Some? && row.terminal.value.failureClass == "temporal_start";
      var after := SubmittedRow(Some(row), request, freshId, starts);
      && (row.request != request || !restartable ==> after == row)
      && (row.request == request && restartable ==>
           && after.jobId == row.jobId && after.request == row.request && after.cancelKey == row.cancelKey
           && (if starts then after.state == Queued && after.terminal == None
               else after.state == Failed && after.terminal.Some? && after.terminal.value.failureClass == "temporal_start"))
  {
  }

  /** Any other job keeps its state when the start succeeds, and is a failed start when it raises. */
  lemma RunningReplayFails(row: JobRow, request: Request, freshId: string, starts: bool)
    requires row.state !in {Succeeded, Failed, Canceled, TimedOut, Rejected} && row.request == request
    ensures var after := SubmittedRow(Some(row), request, freshId, starts);
      && after.jobId == row.jobId && after.request == row.request && after.cancelKey == row.cancelKey
      && (if starts then after == row
          else after.state == Failed && after.terminal.Some? && after.terminal.value.failureClass == "temporal_start")
  {
  }

  /** The records that a replay which found them preserves: the five terminal states, but for a failed Temporal start. */
  lemma PreservedExactly(row: JobRow)
    ensures Preserved(row, true) <==>
      && row.state in {Succeeded, Failed, Canceled, TimedOut, Rejected}
      && !(row.state == Failed && row.terminal.Some? && row.terminal.value.failureClass == "temporal_start")
    ensures !Preserved(row, false)
  {
  }

  /** A cancellation marks a job exactly if it is in none of the five terminal states and carries another key. */
  lemma CanceledExactly(row: JobRow, key: string)
    ensures var cancels := row.state !in {Succeeded, Failed, Canceled, TimedOut, Rejected} && row.cancelKey != Some(key);
      && (Signals(row, key) <==> cancels)
      && CanceledRow(row, key) == if cancels then JobRow(row.jobId, row.request, Canceling, row.terminal, Some(key)) else row
  {
  }

  // ----------------------------------------------------------- interleaved

  /** Where one session stands inside a submission or a cancellation. */
  datatype Session =
    | Idle
    | Searching(slot: Slot, request: Request)
    | Creating(slot: Slot, request: Request)
    | Inserting(slot: Slot, request: Request)
    | Rereading(slot: Slot, request: Request)
    | Holding(slot: Slot, request: Request, row: JobRow, found: bool, replayed: bool)
    | Starting(slot: Slot, request: Request, view: JobRow, preserve: bool, replayed: bool)
    | Cancelling(slot: Slot, key: string, row: JobRow)

  datatype Receipt = Receipt(slot: Slot, request: Request, jobId: string, replayed: bool)

  datatype System = System(rows: map<Slot, JobRow>, sessions: map<nat, Session>, receipts: seq<Receipt>)

  const INITIAL := System(map[], map[], [])

  function SessionOf(s: System, sid: nat): Session {
    if sid in s.sessions then s.sessions[sid] else Idle
  }

  datatype Step =
    | Arrive(sid: nat, slot: Slot, request: Request)
    | Find(sid: nat)
    | CheckAgain(sid: nat)
    | Insert(sid: nat, freshId: string)
    | Reread(sid: nat)
    | Commit(sid: nat)
    | StartSucceeds(sid: nat)
    | StartFails(sid: nat)
    | Observe(slot: Slot, state: JobState, terminal: Option<TerminalOutcome>)
    | CancelRead(sid: nat, slot: Slot, key: string)
    | CancelWrite(sid: nat)

  function JobIds(rows: map<Slot, JobRow>): set<string> {
    set slot | slot in rows :: rows[slot].jobId
  }

  /** The session after reading its slot: a match is held, a different request is a conflict, none leads on. */
  function ReadSlot(s: System, slot: Slot, request: Request, found: bool, otherwise: Session): Session {
    if slot !in s.rows then otherwise
    else if s.rows[slot].request != request then Idle
    else Holding(slot, request, s.rows[slot], found, true)
  }

  function Next(s: System, step: Step): System {
    match step
    case Arrive(sid, slot, request) => s.(sessions := s.sessions[sid := Searching(slot, request)])
    case Observe(slot, state, terminal) =>
      if slot in s.rows
      then s.(rows := s.rows[slot := s.rows[slot].(state := state, terminal := if terminal.Some? then terminal else s.rows[slot].terminal)])
      else s
    case CancelRead(sid, slot, key) =>
      s.(sessions := s.sessions[sid := if slot in s.rows then Cancelling(slot, key, s.rows[slot]) else Idle])
    case CancelWrite(sid) =>
      (match SessionOf(s, sid)
       case Cancelling(slot, key, row) =>
         s.(rows := if slot in s.rows then s.rows[slot := CanceledOver(s.rows[slot], row, key)] else s.rows,
            sessions := s.sessions[sid := Idle])
       case _ => s)
    case Find(sid) =>
      (match SessionOf(s, sid)
       case Searching(slot, request) => s.(sessions := s.sessions[sid := ReadSlot(s, slot, request, true, Creating(slot, request))])
       case _ => s)
    case CheckAgain(sid) =>
      (match SessionOf(s, sid)
       case Creating(slot, request) => s.(sessions := s.sessions[sid := ReadSlot(s, slot, request, false, Inserting(slot, request))])
       case _ => s)
    case Insert(sid, freshId) =>
      (match SessionOf(s, sid)
       case Inserting(slot, request) =>
         if slot in s.rows || freshId in JobIds(s.rows) then s.(sessions := s.sessions[sid := Rereading(slot, request)])
         else
           s.(rows := s.rows[slot := NewRow(freshId, request)],
              sessions := s.sessions[sid := Holding(slot, request, NewRow(freshId, request), false, false)])
       case _ => s)
    case Reread(sid) =>
      (match SessionOf(s, sid)
       case Rereading(slot, request) => s.(sessions := s.sessions[sid := ReadSlot(s, slot, request, false, Idle)])
       case _ => s)
    case Commit(sid) =>
      (match SessionOf(s, sid)
       case Holding(slot, request, row, found, replayed) =>
         if slot !in s.rows then s else
           s.(rows := if Recovering(row) then s.rows[slot := Requeued(s.rows[slot])] else s.rows,
              sessions := s.sessions[sid := Starting(slot, request, if Recovering(row) then Requeued(row) else row, Preserved(row, found), replayed)])
       case _ => s)
    case StartSucceeds(sid) =>
      (match SessionOf(s, sid)
       case Starting(slot, request, view, _, replayed) =>
         s.(sessions := s.sessions[sid := Idle], receipts := s.receipts + [Receipt(slot, request, view.jobId, replayed)])
       case _ => s)
    case StartFails(sid) =>
      (match SessionOf(s, sid)
       case Starting(slot, _, view, preserve, _) =>
         s.(rows := if preserve || slot !in s.rows then s.rows else s.rows[slot := StartFailedOver(s.rows[slot], view)],
            sessions := s.sessions[sid := Idle])
       case _ => s)
  }

  ghost function After(run: seq<Step>): System {
    if run == [] then INITIAL else Next(After(run[..|run| - 1]), run[|run| - 1])
  }

  /** A session that got past its lookups knows the job of its slot, and asked for that very job. */
  ghost predicate Informed(s: System, session: Session) {
    match session
    case Holding(slot, request, row, _, _) => slot in s.rows && row.request == request && SameJob(row, s.rows[slot])
    case Starting(slot, request, view, _, _) => slot in s.rows && view.request == request && SameJob(view, s.rows[slot])
    case _ => true
  }

  ghost predicate Honest(s: System, receipt: Receipt) {
    receipt.slot in s.rows && s.rows[receipt.slot].jobId == receipt.jobId && s.rows[receipt.slot].request == receipt.request
  }

  ghost predicate SystemInvariant(s: System) {
    && (forall sid :: sid in s.sessions ==> Informed(s, s.sessions[sid]))
    && (forall i :: 0 <= i < |s.receipts| ==> Honest(s, s.receipts[i]))
    && (forall a, b :: a in s.rows && b in s.rows && s.rows[a].jobId == s.rows[b].jobId ==> a == b)
  }

  /** No step removes a job or changes whose request it is. */
  lemma JobsPersist(s: System, step: Step, slot: Slot)
    requires SystemInvariant(s) && slot in s.rows
    ensures slot in Next(s, step).rows && SameJob(s.rows[slot], Next(s, step).rows[slot])
  {
  }

  lemma SessionsStayInformed(s: System, step: Step, sid: nat)
    requires SystemInvariant(s) && sid in Next(s, step).sessions
    ensures Informed(Next(s, step), Next(s, step).sessions[sid])
  {
    if sid in s.sessions {
      var session := s.sessions[sid];
      assert Informed(s, session);
      if !session.Idle? && session.slot in s.rows {
        JobsPersist(s, step, session.slot);
      }
    }
  }

  lemma ReceiptsStayHonest(s: System, step: Step, i: nat)
    requires SystemInvariant(s) && i < |Next(s, step).receipts|
    ensures Honest(Next(s, step), Next(s, step).receipts[i])
  {
    if i < |s.receipts| {
      assert Honest(s, s.receipts[i]);
      JobsPersist(s, step, s.receipts[i].slot);
    } else {
      assert Informed(s, s.sessions[step.sid]);
    }
  }

  lemma JobIdsStayDistinct(s: System, step: Step, a: Slot, b: Slot)
    requires SystemInvariant(s) && a in Next(s, step).rows && b in Next(s, step).rows
    requires Next(s, step).rows[a].jobId == Next(s, step).rows[b].jobId
    ensures a == b
  {
    if a in s.rows {
      JobsPersist(s, step, a);
      assert s.rows[a].jobId in JobIds(s.rows);
    }
    if b in s.rows {
      JobsPersist(s, step, b);
      assert s.rows[b].jobId in JobIds(s.rows);
    }
  }

  lemma StepKeepsInvariant(s: System, step: Step)
    requires SystemInvariant(s)
    ensures SystemInvariant(Next(s, step))
  {
    hide Next;
    var s' := Next(s, step);
    forall sid | sid in s'.sessions
      ensures Informed(s', s'.sessions[sid])
    {
      SessionsStayInformed(s, step, sid);
    }
    forall i | 0 <= i < |s'.receipts|
      ensures Honest(s', s'.receipts[i])
    {
      ReceiptsStayHonest(s, step, i);
    }
    forall a, b | a in s'.rows && b in s'.rows && s'.rows[a].jobId == s'.rows[b].jobId
      ensures a == b
    {
      JobIdsStayDistinct(s, step, a, b);
    }
  }

  lemma {:induction false} Reachable(run: seq<Step>)
    ensures SystemInvariant(After(run))
  {
    if run != [] {
      Reachable(run[..|run| - 1]);
      StepKeepsInvariant(After(run[..|run| - 1]), run[|run| - 1]);
    }
  }

  /** The job of a slot is settled by the first insertion: every later state holds the same job. */
  lemma {:induction false} FirstInsertWins(run: seq<Step>, i: nat, slot: Slot)
    requires i <= |run| && slot in After(run[..i]).rows
    ensures slot in After(run).rows && SameJob(After(run[..i]).rows[slot], After(run).rows[slot])
  {
    if i == |run| {
      assert run[..i] == run;
    } else {
      assert run[..|run| - 1][..i] == run[..i];
      FirstInsertWins(run[..|run| - 1], i, slot);
      Reachable(run[..|run| - 1]);
      JobsPersist(After(run[..|run| - 1]), run[|run| - 1], slot);
    }
  }

  /** Two accepted submissions of one slot were given the same job, for the same request. */
  lemma AcceptedAgree(run: seq<Step>, i: nat, j: nat)
    requires i < |After(run).receipts| && j < |After(run).receipts|
    ensures var a, b := After(run).receipts[i], After(run).receipts[j];
      && a.slot in After(run).rows && After(run).rows[a.slot].jobId == a.jobId && After(run).rows[a.slot].request == a.request
      && (a.slot == b.slot <==> a.jobId == b.jobId)
      && (a.slot == b.slot ==> a.request == b.request)
  {
    Reachable(run);
    assert Honest(After(run), After(run).receipts[i]);
    assert Honest(After(run), After(run).receipts[j]);
  }

  /** What says that a submission created its job: a session that has yet to report it, or a receipt that does. */
  datatype Claim = BySession(sid: nat) | ByReceipt(index: nat)

  ghost predicate Claims(s: System, claim: Claim, slot: Slot) {
    match claim
    case BySession(sid) =>
      (match SessionOf(s, sid)
       case Holding(at, _, _, _, replayed) => at == slot && !replayed
       case Starting(at, _, _, _, replayed) => at == slot && !replayed
       case _ => false)
    case ByReceipt(index) => index < |s.receipts| && s.receipts[index].slot == slot && !s.receipts[index].replayed
  }

  ghost predicate OneCreator(s: System) {
    forall a, b, slot :: Claims(s, a, slot) && Claims(s, b, slot) ==> a == b
  }

  /** A claim is new only with the insertion of its job, and otherwise passes from a session to its receipt. */
  lemma ClaimBefore(s: System, step: Step, claim: Claim, slot: Slot)
    requires SystemInvariant(s) && Claims(Next(s, step), claim, slot)
    ensures if slot in s.rows then
        Claims(s, if step.StartSucceeds? && claim == ByReceipt(|s.receipts|) then BySession(step.sid) else claim, slot)
      else
        step.Insert? && claim == BySession(step.sid)
  {
    match claim
    case BySession(sid) => SessionClaimBefore(s, step, sid, slot);
    case ByReceipt(index) => ReceiptClaimBefore(s, step, index, slot);
  }

  lemma SessionClaimBefore(s: System, step: Step, sid: nat, slot: Slot)
    requires SystemInvariant(s) && Claims(Next(s, step), BySession(sid), slot)
    ensures if slot in s.rows then Claims(s, BySession(sid), slot) else step.Insert? && step.sid == sid
  {
    if sid in s.sessions {
      assert Informed(s, s.sessions[sid]);
    }
  }

  lemma ReceiptClaimBefore(s: System, step: Step, index: nat, slot: Slot)
    requires SystemInvariant(s) && Claims(Next(s, step), ByReceipt(index), slot)
    ensures slot in s.rows
    ensures Claims(s, if step.StartSucceeds? && index == |s.receipts| then BySession(step.sid) else ByReceipt(index), slot)
  {
    if index < |s.receipts| {
      assert Honest(s, s.receipts[index]);
    } else {
      assert Informed(s, s.sessions[step.sid]);
    }
  }

  lemma {:induction false} CreatorIsUnique(run: seq<Step>)
    ensures OneCreator(After(run))
  {
    if run != [] {
      var s, step := After(run[..|run| - 1]), run[|run| - 1];
      CreatorIsUnique(run[..|run| - 1]);
      Reachable(run[..|run| - 1]);
      forall a, b, slot | Claims(Next(s, step), a, slot) && Claims(Next(s, step), b, slot)
        ensures a == b
      {
        ClaimBefore(s, step, a, slot);
        ClaimBefore(s, step, b, slot);
      }
    }
  }

  /** Of all accepted submissions of one slot at most one is told that it created the job. */
  lemma OneSubmissionCreates(run: seq<Step>, i: nat, j: nat)
    requires i < |After(run).receipts| && j < |After(run).receipts| && After(run).receipts[i].slot == After(run).receipts[j].slot
    requires !After(run).receipts[i].replayed && !After(run).receipts[j].replayed
    ensures i == j
  {
    CreatorIsUnique(run);
    assert Claims(After(run), ByReceipt(i), After(run).receipts[i].slot);
    assert Claims(After(run), ByReceipt(j), After(run).receipts[j].slot);
  }

  /** A submission changes an existing job only if it asks for exactly that job's request, and never a preserved one. */
  lemma OnlyTheSameRequestWrites(run: seq<Step>, step: Step, slot: Slot)
    requires slot in After(run).rows && !step.Observe? && !step.CancelWrite?
    requires Next(After(run), step).rows[slot] != After(run).rows[slot]
    ensures (step.Commit? || step.StartFails?) && SessionOf(After(run), step.sid) != Idle
    ensures var session := SessionOf(After(run), step.sid);
      && !session.Idle? && session.slot == slot && session.request == After(run).rows[slot].request
      && (session.Holding? ==> Recovering(session.row))
      && (session.Starting? ==> !session.preserve)
  {
    Reachable(run);
    var session := SessionOf(After(run), step.sid);
    assert step.sid in After(run).sessions ==> Informed(After(run), session);
  }

  // ------------------------------------------------ terminal jobs over runs

  function RunFrom(s: System, steps: seq<Step>): System
    decreases |steps|
  {
    if steps == [] then s else RunFrom(Next(s, steps[0]), steps[1..])
  }

  /** A replay that read a terminal record and will not write to it. */
  predicate Harmless(session: Session, slot: Slot, row: JobRow) {
    || session.Idle?
    || (session.Holding? && session.slot == slot && session.row == row && session.found)
    || (session.Starting? && session.slot == slot && session.preserve)
  }

  /** The session begins another submission or cancellation. */
  predicate Opens(step: Step, sid: nat) {
    (step.Arrive? || step.CancelRead?) && step.sid == sid
  }

  lemma HarmlessStep(s: System, step: Step, sid: nat, slot: Slot, row: JobRow)
    requires Harmless(SessionOf(s, sid), slot, row) && Preserved(row, true)
    requires !Opens(step, sid)
    ensures Harmless(SessionOf(Next(s, step), sid), slot, row)
    ensures (step.Commit? || step.StartSucceeds? || step.StartFails? || step.CancelWrite?) && step.sid == sid ==> Next(s, step).rows == s.rows
  {
  }

  /**
    A submission that found a terminal record, other than a failed Temporal start, keeps it:
    until that session begins something else it only holds what it read or has preservation decided,
    and none of its own steps changes any row.
   */
  lemma {:induction false} ReplayOfTerminalPreserves(run: seq<Step>, i: nat, sid: nat, slot: Slot)
    requires i < |run| && run[i] == Find(sid)
    requires SessionOf(After(run[..i]), sid).Searching? && SessionOf(After(run[..i]), sid).slot == slot
    requires slot in After(run[..i]).rows && Preserved(After(run[..i]).rows[slot], true)
    requires forall k :: i < k < |run| ==> !Opens(run[k], sid)
    ensures Harmless(SessionOf(After(run), sid), slot, After(run[..i]).rows[slot])
    ensures forall step: Step :: (step.Commit? || step.StartSucceeds? || step.StartFails? || step.CancelWrite?) && step.sid == sid ==>
      Next(After(run), step).rows == After(run).rows
  {
    hide Next, Harmless, Preserved;
    var row := After(run[..i]).rows[slot];
    var n := |run| - 1;
    if n == i {
      FindHolds(After(run[..i]), sid);
    } else {
      assert run[..n][..i] == run[..i];
      ReplayOfTerminalPreserves(run[..n], i, sid, slot);
      HarmlessStep(After(run[..n]), run[n], sid, slot, row);
    }
    forall step: Step | (step.Commit? || step.StartSucceeds? || step.StartFails? || step.CancelWrite?) && step.sid == sid
      ensures Next(After(run), step).rows == After(run).rows
    {
      HarmlessStep(After(run), step, sid, slot, row);
    }
  }

  lemma FindHolds(s: System, sid: nat)
    requires SessionOf(s, sid).Searching? && SessionOf(s, sid).slot in s.rows
    ensures var slot := SessionOf(s, sid).slot;
      Harmless(SessionOf(Next(s, Find(sid)), sid), slot, s.rows[slot])
  {
  }

  /** The steps, other than observations, that change this terminal record. */
  predicate Overwrites(s: System, step: Step, slot: Slot)
    requires slot in s.rows
  {
    match step
    case Commit(sid) =>
      var session := SessionOf(s, sid);
      session.Holding? && session.slot == slot && Recovering(session.row)
    case StartFails(sid) =>
      var session := SessionOf(s, sid);
      session.Starting? && session.slot == slot && !session.preserve && StartFailedOver(s.rows[slot], session.view) != s.rows[slot]
    case CancelWrite(sid) =>
      var session := SessionOf(s, sid);
      session.Cancelling? && session.slot == slot && CanceledOver(s.rows[slot], session.row, session.key) != s.rows[slot]
    case _ => false
  }

  /** A terminal record changes exactly under an observation of it or one of those steps. */
  lemma TerminalJobChangesExactly(s: System, step: Step, slot: Slot)
    requires slot in s.rows && Preserved(s.rows[slot], true)
    requires !(step.Observe? && step.slot == slot)
    requires SystemInvariant(s)
    ensures slot in Next(s, step).rows
    ensures Next(s, step).rows[slot] != s.rows[slot] <==> Overwrites(s, step, slot)
  {
    JobsPersist(s, step, slot);
  }

  /** A session that can still come to overwrite the terminal record `row` of this slot. */
  predicate Threatens(session: Session, slot: Slot, row: JobRow) {
    match session
    case Creating(at, request) => at == slot && request == row.request
    case Inserting(at, request) => at == slot && request == row.request
    case Rereading(at, request) => at == slot && request == row.request
    case Holding(at, _, read, found, _) => at == slot && !Preserved(read, found) && (Recovering(read) || StartFailedOver(row, read) != row)
    case Starting(at, _, view, preserve, _) => at == slot && !preserve && StartFailedOver(row, view) != row
    case Cancelling(at, key, read) => at == slot && CanceledOver(row, read, key) != row
    case _ => false
  }

  lemma NoThreatArises(s: System, step: Step, sid: nat, slot: Slot)
    requires slot in s.rows && Preserved(s.rows[slot], true)
    requires !Threatens(SessionOf(s, sid), slot, s.rows[slot])
    requires slot in Next(s, step).rows && Next(s, step).rows[slot] == s.rows[slot]
    ensures !Threatens(SessionOf(Next(s, step), sid), slot, s.rows[slot])
  {
  }

  /** Steps that do not observe this job. */
  predicate Unobserved(steps: seq<Step>, slot: Slot) {
    forall i :: 0 <= i < |steps| && steps[i].Observe? ==> steps[i].slot != slot
  }

  lemma {:induction false} UnthreatenedStays(s: System, steps: seq<Step>, slot: Slot)
    requires SystemInvariant(s) && slot in s.rows && Preserved(s.rows[slot], true)
    requires forall sid :: !Threatens(SessionOf(s, sid), slot, s.rows[slot])
    requires Unobserved(steps, slot)
    ensures slot in RunFrom(s, steps).rows && RunFrom(s, steps).rows[slot] == s.rows[slot]
    decreases |steps|
  {
    hide Next, Threatens, Preserved;
    if steps != [] {
      UnthreatenedStep(s, steps[0], slot);
      var s' := Next(s, steps[0]);
      forall sid
        ensures !Threatens(SessionOf(s', sid), slot, s'.rows[slot])
      {
        NoThreatArises(s, steps[0], sid, slot);
      }
      StepKeepsInvariant(s, steps[0]);
      UnthreatenedStays(s', steps[1..], slot);
    }
  }

  lemma UnthreatenedStep(s: System, step: Step, slot: Slot)
    requires SystemInvariant(s) && slot in s.rows && Preserved(s.rows[slot], true)
    requires forall sid :: !Threatens(SessionOf(s, sid), slot, s.rows[slot])
    requires !(step.Observe? && step.slot == slot)
    ensures slot in Next(s, step).rows && Next(s, step).rows[slot] == s.rows[slot]
  {
    TerminalJobChangesExactly(s, step, slot);
    if Overwrites(s, step, slot) {
      assert Threatens(SessionOf(s, step.sid), slot, s.rows[slot]);
    }
  }

  /** A threatening session overwrites the record when it goes on and its Temporal start fails. */
  lemma ThreatIsCarriedOut(s: System, sid: nat, slot: Slot) returns (steps: seq<Step>)
    requires SystemInvariant(s) && slot in s.rows && Preserved(s.rows[slot], true)
    requires Threatens(SessionOf(s, sid), slot, s.rows[slot])
    ensures Unobserved(steps, slot)
    ensures slot in RunFrom(s, steps).rows && RunFrom(s, steps).rows[slot] != s.rows[slot]
  {
    match SessionOf(s, sid)
    case Starting(_, _, _, _, _) =>
      steps := [StartFails(sid)];
      RunOne(s, StartFails(sid), []);
    case Cancelling(_, _, _) =>
      steps := [CancelWrite(sid)];
      RunOne(s, CancelWrite(sid), []);
    case Holding(_, _, _, _, _) =>
      steps := HeldThreat(s, sid, slot);
    case Rereading(_, _) =>
      var more := HeldThreat(Next(s, Reread(sid)), sid, slot);
      steps := [Reread(sid)] + more;
      RunOne(s, Reread(sid), more);
    case Creating(_, _) =>
      var more := HeldThreat(Next(s, CheckAgain(sid)), sid, slot);
      steps := [CheckAgain(sid)] + more;
      RunOne(s, CheckAgain(sid), more);
    case Inserting(_, _) =>
      var next := Next(s, Insert(sid, ""));
      var more := HeldThreat(Next(next, Reread(sid)), sid, slot);
      steps := [Insert(sid, "")] + ([Reread(sid)] + more);
      RunOne(next, Reread(sid), more);
      RunOne(s, Insert(sid, ""), [Reread(sid)] + more);
  }

  lemma RunOne(s: System, step: Step, more: seq<Step>)
    ensures RunFrom(s, [step] + more) == RunFrom(Next(s, step), more)
  {
    assert ([step] + more)[1..] == more;
  }

  lemma HeldThreat(s: System, sid: nat, slot: Slot) returns (steps: seq<Step>)
    requires slot in s.rows && Preserved(s.rows[slot], true)
    requires SessionOf(s, sid).Holding? && Threatens(SessionOf(s, sid), slot, s.rows[slot])
    ensures Unobserved(steps, slot)
    ensures slot in RunFrom(s, steps).rows && RunFrom(s, steps).rows[slot] != s.rows[slot]
  {
    var next := Next(s, Commit(sid));
    if Recovering(SessionOf(s, sid).row) {
      steps := [Commit(sid)];
      RunOne(s, Commit(sid), []);
    } else {
      steps := [Commit(sid)] + [StartFails(sid)];
      RunOne(next, StartFails(sid), []);
      RunOne(s, Commit(sid), [StartFails(sid)]);
    }
  }

  /** A terminal record can be overwritten without being observed again exactly if some session threatens it. */
  lemma TerminalJobAtRiskExactly(s: System, slot: Slot)
    requires SystemInvariant(s) && slot in s.rows && Preserved(s.rows[slot], true)
    ensures (exists steps :: Unobserved(steps, slot) && (slot in RunFrom(s, steps).rows ==> RunFrom(s, steps).rows[slot] != s.rows[slot]))
      <==> exists sid :: Threatens(SessionOf(s, sid), slot, s.rows[slot])
  {
    hide RunFrom, Next, Threatens, Preserved;
    if steps :| Unobserved(steps, slot) && (slot in RunFrom(s, steps).rows ==> RunFrom(s, steps).rows[slot] != s.rows[slot]) {
      if forall sid :: !Threatens(SessionOf(s, sid), slot, s.rows[slot]) {
        UnthreatenedStays(s, steps, slot);
      }
    }
    if sid :| Threatens(SessionOf(s, sid), slot, s.rows[slot]) {
      var steps := ThreatIsCarriedOut(s, sid, slot);
    }
  }

  lemma AfterNext(run: seq<Step>, step: Step)
    ensures After(run + [step]) == Next(After(run), step)
  {
    assert (run + [step])[..|run|] == run;
  }

  /** A first submission up to the call that starts its workflow. */
  lemma UpToStart(slot: Slot, request: Request, jobId: string) returns (run: seq<Step>)
    ensures After(run).rows == map[slot := NewRow(jobId, request)]
    ensures After(run).sessions.Keys == {0}
    ensures SessionOf(After(run), 0) == Starting(slot, request, NewRow(jobId, request), false, false)
  {
    hide After;
    StartsInitial();
    AfterNext([], Arrive(0, slot, request));
    AfterNext([] + [Arrive(0, slot, request)], Find(0));
    AfterNext([] + [Arrive(0, slot, request)] + [Find(0)], CheckAgain(0));
    AfterNext([] + [Arrive(0, slot, request)] + [Find(0)] + [CheckAgain(0)], Insert(0, jobId));
    AfterNext([] + [Arrive(0, slot, request)] + [Find(0)] + [CheckAgain(0)] + [Insert(0, jobId)], Commit(0));
    run := [] + [Arrive(0, slot, request)] + [Find(0)] + [CheckAgain(0)] + [Insert(0, jobId)] + [Commit(0)];
  }

  lemma StartsInitial()
    ensures After([]) == INITIAL
  {
  }

  /** An exact replay of a failed Temporal start requeues the job. */
  lemma ReplayRequeues(run: seq<Step>, sid: nat, slot: Slot, request: Request)
    requires slot in After(run).rows && After(run).rows[slot].request == request && Recovering(After(run).rows[slot])
    ensures var replay := run + [Arrive(sid, slot, request)] + [Find(sid)] + [Commit(sid)];
      slot in After(replay).rows && After(replay).rows[slot] == Requeued(After(run).rows[slot])
  {
    hide After;
    AfterNext(run, Arrive(sid, slot, request));
    AfterNext(run + [Arrive(sid, slot, request)], Find(sid));
    AfterNext(run + [Arrive(sid, slot, request)] + [Find(sid)], Commit(sid));
  }

  /**
    The code does not keep every terminal outcome: a start call that raises after its
    workflow ran and was observed to succeed turns the job into a failed start, which the
    next replay requeues.
   */
  lemma RaisedStartLosesOutcome(slot: Slot, request: Request, jobId: string) returns (run: seq<Step>)
    ensures After(run).rows == map[slot := NewRow(jobId, request).(state := Succeeded)]
    ensures slot in After(run + [StartFails(0)]).rows && Recovering(After(run + [StartFails(0)]).rows[slot])
    ensures var replay := run + [StartFails(0)] + [Arrive(1, slot, request)] + [Find(1)] + [Commit(1)];
      slot in After(replay).rows && After(replay).rows[slot] == NewRow(jobId, request)
  {
    hide After;
    var started := UpToStart(slot, request, jobId);
    run := started + [Observe(slot, Succeeded, None)];
    AfterNext(started, Observe(slot, Succeeded, None));
    AfterNext(run, StartFails(0));
    ReplayRequeues(run + [StartFails(0)], 1, slot, request);
  }

  /**
    Nor does it keep every outcome from cancellations: one that read the job while it ran
    marks it as being cancelled although it was observed to succeed in the meantime.
   */
  lemma StaleCancelOverwrites(slot: Slot, request: Request, jobId: string, key: string) returns (run: seq<Step>)
    ensures slot in After(run).rows && After(run).rows[slot] == NewRow(jobId, request).(state := Succeeded)
    ensures forall sid :: SessionOf(After(run), sid).Idle? || SessionOf(After(run), sid).Cancelling?
    ensures var after := After(run + [CancelWrite(1)]);
      slot in after.rows && after.rows[slot] == NewRow(jobId, request).(state := Canceling, cancelKey := Some(key))
  {
    hide After, Next;
    var started := UpToStart(slot, request, jobId);
    AfterNext(started, StartSucceeds(0));
    AcceptedThenRead(After(started), slot, request, jobId, key);
    AfterNext(started + [StartSucceeds(0)], CancelRead(1, slot, key));
    run := started + [StartSucceeds(0)] + [CancelRead(1, slot, key)] + [Observe(slot, Succeeded, None)];
    AfterNext(started + [StartSucceeds(0)] + [CancelRead(1, slot, key)], Observe(slot, Succeeded, None));
    ObservedThenWritten(After(started + [StartSucceeds(0)] + [CancelRead(1, slot, key)]), slot, NewRow(jobId, request), key);
    AfterNext(run, CancelWrite(1));
    forall sid
      ensures SessionOf(After(run), sid).Idle? || SessionOf(After(run), sid).Cancelling?
    {
      assert SessionOf(After(run), sid) == SessionOf(After(started + [StartSucceeds(0)] + [CancelRead(1, slot, key)]), sid);
    }
  }

  lemma AcceptedThenRead(s: System, slot: Slot, request: Request, jobId: string, key: string)
    requires s.rows == map[slot := NewRow(jobId, request)] && s.sessions.Keys == {0}
    requires SessionOf(s, 0) == Starting(slot, request, NewRow(jobId, request), false, false)
    ensures var read := Next(Next(s, StartSucceeds(0)), CancelRead(1, slot, key));
      && read.rows == s.rows
      && SessionOf(read, 1) == Cancelling(slot, key, NewRow(jobId, request))
      && (forall sid :: sid != 1 ==> SessionOf(read, sid).Idle?)
  {
  }

  lemma ObservedThenWritten(s: System, slot: Slot, row: JobRow, key: string)
    requires slot in s.rows && s.rows[slot] == row && SessionOf(s, 1) == Cancelling(slot, key, row) && row.state == Queued && row.cancelKey.None?
    ensures var observed := Next(s, Observe(slot, Succeeded, None));
      && slot in observed.rows && observed.rows[slot] == row.(state := Succeeded)
      && observed.sessions == s.sessions
      && var after := Next(observed, CancelWrite(1));
      && slot in after.rows && after.rows[slot] == row.(state := Canceling, cancelKey := Some(key))
  {
  }

  /** Without interference a cancellation does what the sequential service does. */
  lemma UndisturbedCancelIsSequential(s: System, sid: nat, slot: Slot, key: string)
    requires slot in s.rows
    ensures Next(Next(s, CancelRead(sid, slot, key)), CancelWrite(sid)).rows == s.rows[slot := CanceledRow(s.rows[slot], key)]
  {
  }

  /** A submission up to its commit, with nothing in between. */
  function LookedUp(s: System, sid: nat, slot: Slot, request: Request, freshId: string): System {
    Next(Next(Next(Next(s, Arrive(sid, slot, request)), Find(sid)), CheckAgain(sid)), Insert(sid, freshId))
  }

  function Undisturbed(s: System, sid: nat, slot: Slot, request: Request, freshId: string, starts: bool): System {
    Next(Next(LookedUp(s, sid, slot, request, freshId), Commit(sid)), if starts then StartSucceeds(sid) else StartFails(sid))
  }

  lemma LookupFinds(s: System, sid: nat, slot: Slot, request: Request, freshId: string)
    requires slot in s.rows
    ensures var looked := LookedUp(s, sid, slot, request, freshId);
      && looked.rows == s.rows && looked.receipts == s.receipts
      && SessionOf(looked, sid) == ReadSlot(s, slot, request, true, Idle)
  {
  }

  lemma LookupInserts(s: System, sid: nat, slot: Slot, request: Request, freshId: string)
    requires slot !in s.rows && freshId !in JobIds(s.rows)
    ensures var looked := LookedUp(s, sid, slot, request, freshId);
      && looked.rows == s.rows[slot := NewRow(freshId, request)] && looked.receipts == s.receipts
      && SessionOf(looked, sid) == Holding(slot, request, NewRow(freshId, request), false, false)
  {
  }

  /** Without interference the protocol does what the sequential service does. */
  lemma UndisturbedIsSequential(s: System, sid: nat, slot: Slot, request: Request, freshId: string, starts: bool)
    requires freshId !in JobIds(s.rows)
    ensures var s' := Undisturbed(s, sid, slot, request, freshId, starts);
      var existing := if slot in s.rows then Some(s.rows[slot]) else None;
      && s'.rows == s.rows[slot := SubmittedRow(existing, request, freshId, starts)]
      && s'.receipts ==
           if starts && (existing.None? || existing.value.request == request)
           then s.receipts + [Receipt(slot, request, if existing.None? then freshId else existing.value.jobId, existing.Some?)]
           else s.receipts
  {
    hide LookedUp, Next, SubmittedRow;
    var looked := LookedUp(s, sid, slot, request, freshId);
    if slot !in s.rows {
      LookupInserts(s, sid, slot, request, freshId);
      HeldSubmission(looked, sid, freshId, starts);
    } else {
      LookupFinds(s, sid, slot, request, freshId);
      if s.rows[slot].request == request {
        HeldSubmission(looked, sid, freshId, starts);
      } else {
        ConflictEnds(looked, sid, starts);
        ConflictKeepsRow(s.rows[slot], request, freshId, starts);
        assert s.rows == s.rows[slot := s.rows[slot]];
      }
    }
  }

  lemma ConflictKeepsRow(row: JobRow, request: Request, freshId: string, starts: bool)
    requires row.request != request
    ensures SubmittedRow(Some(row), request, freshId, starts) == row
  {
  }

  lemma ConflictEnds(s: System, sid: nat, starts: bool)
    requires SessionOf(s, sid).Idle?
    ensures Next(Next(s, Commit(sid)), if starts then StartSucceeds(sid) else StartFails(sid)) == s
  {
  }

  /** A session that holds the row as it is stored commits it and starts its workflow as the sequential service does. */
  lemma HeldSubmission(s: System, sid: nat, freshId: string, starts: bool)
    requires var session := SessionOf(s, sid);
      && session.Holding? && session.slot in s.rows && s.rows[session.slot] == session.row
      && session.row.request == session.request && session.found == session.replayed
      && (!session.replayed ==> session.row == NewRow(freshId, session.request))
    ensures var session := SessionOf(s, sid);
      var s' := Next(Next(s, Commit(sid)), if starts then StartSucceeds(sid) else StartFails(sid));
      var existing := if session.replayed then Some(session.row) else None;
      && s'.rows == s.rows[session.slot := SubmittedRow(existing, session.request, freshId, starts)]
      && s'.receipts == s.receipts + if starts then [Receipt(session.slot, session.request, session.row.jobId, session.replayed)] else []
  {
  }
}
