/** The harness-owned part of a CoderRun status and the closed patch that trusted
    control may apply to it (internal/broker/status.go).

    A nil `activeOperations` map and an empty one are the same value: both are
    omitted when the status is persisted. */
module StatusRecords {
  import opened Options

  type Uid = string

  /** A timestamp: an instant, and the clock representation it happens to carry. */
  datatype Time = Time(instant: int, zone: int) {
    predicate IsZero() { instant == 0 }

    predicate Equal(other: Time) { instant == other.instant }
  }

  datatype Checkpoint = Checkpoint(plan: string, completedBriefs: seq<string>)

  datatype Heartbeat = Heartbeat(at: Time, kind: string, uid: Uid)

  datatype ControlRequest = ControlRequest(id: string, targetPodUid: Uid)

  datatype ControlRequestAck = ControlRequestAck(id: string, at: Time)

  datatype NativeResult = NativeResult(kind: string, reason: string, uid: Uid, at: Time)

  datatype CloseCriterion = CloseCriterion(criterion: string, path: string, excerpt: string)

  datatype NoChangeClose = NoChangeClose(criteria: seq<CloseCriterion>, evidence: string, uid: Uid, at: Time)

  datatype ModelSurface = ModelSurface(schemaVersion: int, digest: string, uid: Uid, at: Time)

  datatype ActiveOperation = ActiveOperation(briefId: string, coordinatorUid: Uid, workerUid: Uid, dispatchedAt: Time)

  type Operations = map<string, ActiveOperation>

  /** `rest` stands for every field the harness never writes. */
  datatype Status = Status(
    checkpoint: Option<Checkpoint>,
    heartbeat: Option<Heartbeat>,
    lastCommit: string,
    ack: Option<ControlRequestAck>,
    terminal: Option<NativeResult>,
    noChange: Option<NoChangeClose>,
    surface: Option<ModelSurface>,
    operations: Operations,
    request: Option<ControlRequest>,
    rest: string)

  datatype OperationAddition = OperationAddition(id: string, operation: ActiveOperation)

  datatype Patch = Patch(
    checkpoint: Option<Checkpoint>,
    heartbeat: Option<Heartbeat>,
    lastCommit: Option<string>,
    ack: Option<ControlRequestAck>,
    terminal: Option<NativeResult>,
    noChange: Option<NoChangeClose>,
    surface: Option<ModelSurface>,
    add: Option<OperationAddition>,
    clear: string,
    reconcile: bool)

  const MAX_ACTIVE_OPERATIONS: nat := 64

  // ---- "same evidence" comparisons: equal up to the clock representation ----

  predicate SameOperation(a: ActiveOperation, b: ActiveOperation) {
    a.briefId == b.briefId && a.coordinatorUid == b.coordinatorUid && a.workerUid == b.workerUid
    && a.dispatchedAt.Equal(b.dispatchedAt)
  }

  predicate SameTerminal(a: NativeResult, b: NativeResult) {
    a.kind == b.kind && a.reason == b.reason && a.uid == b.uid && a.at.Equal(b.at)
  }

  predicate SameNoChange(a: NoChangeClose, b: NoChangeClose) {
    a.uid == b.uid && a.at.Equal(b.at) && a.evidence == b.evidence && a.criteria == b.criteria
  }

  predicate SameSurface(a: ModelSurface, b: ModelSurface) {
    a.schemaVersion == b.schemaVersion && a.digest == b.digest && a.uid == b.uid && a.at.Equal(b.at)
  }

  // ---- the three set-once slots, seen uniformly ----

  datatype Slot = TerminalSlot | NoChangeSlot | SurfaceSlot

  /** The incarnation that a slot's record attributes itself to. */
  function SlotUid(slot: Slot, s: Status): Option<Uid> {
    match slot
    case TerminalSlot => if s.terminal.Some? then Some(s.terminal.value.uid) else None
    case NoChangeSlot => if s.noChange.Some? then Some(s.noChange.value.uid) else None
    case SurfaceSlot => if s.surface.Some? then Some(s.surface.value.uid) else None
  }

  /** Both statuses hold a record in the slot and the two are the same evidence. */
  predicate SlotSame(slot: Slot, s: Status, t: Status) {
    match slot
    case TerminalSlot => s.terminal.Some? && t.terminal.Some? && SameTerminal(s.terminal.value, t.terminal.value)
    case NoChangeSlot => s.noChange.Some? && t.noChange.Some? && SameNoChange(s.noChange.value, t.noChange.value)
    case SurfaceSlot => s.surface.Some? && t.surface.Some? && SameSurface(s.surface.value, t.surface.value)
  }

  // ---- what a patch may do to a status ----

  /** No set-once record already held by the same incarnation contradicts the patch. */
  predicate AcceptsRecords(s: Status, p: Patch) {
    && (p.terminal.Some? && s.terminal.Some? && s.terminal.value.uid == p.terminal.value.uid
        ==> SameTerminal(s.terminal.value, p.terminal.value))
    && (p.noChange.Some? && s.noChange.Some? && s.noChange.value.uid == p.noChange.value.uid
        ==> SameNoChange(s.noChange.value, p.noChange.value))
    && (p.surface.Some? && s.surface.Some? && s.surface.value.uid == p.surface.value.uid
        ==> SameSurface(s.surface.value, p.surface.value))
  }

  /** An added operation repeats the recorded evidence or still fits. */
  predicate AcceptsOperations(operations: Operations, p: Patch) {
    p.add.Some? ==>
      var start := if p.reconcile then map[] else operations;
      if p.add.value.id in start
      then SameOperation(start[p.add.value.id], p.add.value.operation)
      else |start| < MAX_ACTIVE_OPERATIONS
  }

  predicate Accepts(s: Status, p: Patch) {
    AcceptsRecords(s, p) && AcceptsOperations(s.operations, p)
  }

  function OperationsAfter(operations: Operations, p: Patch): Operations {
    var reconciled: Operations := if p.reconcile then map[] else operations;
    var added :=
      if p.add.Some? && p.add.value.id !in reconciled
      then reconciled[p.add.value.id := p.add.value.operation]
      else reconciled;
    if p.clear != "" then added - {p.clear} else added
  }

  function OrElse<T>(named: Option<T>, kept: Option<T>): Option<T> {
    if named.Some? then named else kept
  }

  /** The status after an accepted patch. */
  function Updated(s: Status, p: Patch): Status {
    Status(
      OrElse(p.checkpoint, s.checkpoint),
      OrElse(p.heartbeat, s.heartbeat),
      if p.lastCommit.Some? then p.lastCommit.value else s.lastCommit,
      OrElse(p.ack, s.ack),
      OrElse(p.terminal, s.terminal),
      OrElse(p.noChange, s.noChange),
      OrElse(p.surface, s.surface),
      OperationsAfter(s.operations, p),
      s.request,
      s.rest)
  }

  /** `after` differs from `before` only in what the patch names: every scalar
      field the patch leaves out is untouched, and the operations change exactly
      by what it adds, clears and reconciles. */
  ghost predicate ChangesOnlyNamed(p: Patch, before: Status, after: Status) {
    && (p.checkpoint.None? ==> after.checkpoint == before.checkpoint)
    && (p.heartbeat.None? ==> after.heartbeat == before.heartbeat)
    && (p.lastCommit.None? ==> after.lastCommit == before.lastCommit)
    && (p.ack.None? ==> after.ack == before.ack)
    && (p.terminal.None? ==> after.terminal == before.terminal)
    && (p.noChange.None? ==> after.noChange == before.noChange)
    && (p.surface.None? ==> after.surface == before.surface)
    && after.request == before.request && after.rest == before.rest
    && OperationsExact(p, before.operations, after.operations)
  }

  ghost predicate EntryKept(before: Operations, after: Operations, k: string) {
    (k in before <==> k in after) && (k in before ==> before[k] == after[k])
  }

  /** The added operation is there, the cleared one is gone, and every other entry
      is kept, and so is one that was there already, unless the whole set is
      reconciled away. */
  ghost predicate OperationsExact(p: Patch, before: Operations, after: Operations) {
    && (forall k | (p.add.Some? ==> k != p.add.value.id) && (p.clear != "" ==> k != p.clear) && !p.reconcile ::
          EntryKept(before, after, k))
    && (forall k | k in before && k != p.clear && !p.reconcile :: k in after && after[k] == before[k])
    && (p.reconcile ==> after.Keys <= (if p.add.Some? then {p.add.value.id} else {}))
    && (p.add.Some? && p.add.value.id != p.clear ==>
          && p.add.value.id in after
          && var kept, named := after[p.add.value.id], p.add.value.operation;
             && kept.briefId == named.briefId && kept.coordinatorUid == named.coordinatorUid && kept.workerUid == named.workerUid
             && kept.dispatchedAt.instant == named.dispatchedAt.instant)
    && (p.clear != "" ==> p.clear !in after)
  }

  /** ... and everything the patch does name is there, all or nothing. */
  predicate CarriesNamed(p: Patch, after: Status) {
    && (p.checkpoint.Some? ==> after.checkpoint == p.checkpoint)
    && (p.heartbeat.Some? ==> after.heartbeat == p.heartbeat)
    && (p.lastCommit.Some? ==> after.lastCommit == p.lastCommit.value)
    && (p.ack.Some? ==> after.ack == p.ack)
    && (p.terminal.Some? ==> after.terminal == p.terminal)
    && (p.noChange.Some? ==> after.noChange == p.noChange)
    && (p.surface.Some? ==> after.surface == p.surface)
  }

  lemma {:induction false} OperationsStayWithin(operations: Operations, p: Patch)
    requires AcceptsOperations(operations, p) && |operations| <= MAX_ACTIVE_OPERATIONS
    ensures |OperationsAfter(operations, p)| <= MAX_ACTIVE_OPERATIONS
  {
    var reconciled: Operations := if p.reconcile then map[] else operations;
    var added :=
      if p.add.Some? && p.add.value.id !in reconciled
      then reconciled[p.add.value.id := p.add.value.operation]
      else reconciled;
    assert |added| <= MAX_ACTIVE_OPERATIONS;
    var cleared := added - {p.clear};
    assert cleared.Keys <= added.Keys;
    SubsetSize(cleared.Keys, added.Keys);
  }

  lemma {:induction false} OtherEntriesAreKept(operations: Operations, p: Patch, k: string)
    requires (p.add.Some? ==> k != p.add.value.id) && (p.clear != "" ==> k != p.clear) && !p.reconcile
    ensures EntryKept(operations, OperationsAfter(operations, p), k)
  {
  }

  lemma {:induction false} OperationsAreExact(operations: Operations, p: Patch)
    requires AcceptsOperations(operations, p)
    ensures OperationsExact(p, operations, OperationsAfter(operations, p))
  {
    forall k | (p.add.Some? ==> k != p.add.value.id) && (p.clear != "" ==> k != p.clear) && !p.reconcile
      ensures EntryKept(operations, OperationsAfter(operations, p), k)
    {
      OtherEntriesAreKept(operations, p, k);
    }
    NamedEntriesAreExact(operations, p);
  }

  lemma {:induction false} NamedEntriesAreExact(operations: Operations, p: Patch)
    requires AcceptsOperations(operations, p)
    ensures var after := OperationsAfter(operations, p);
            && (p.reconcile ==> after.Keys <= (if p.add.Some? then {p.add.value.id} else {}))
            && (p.add.Some? && p.add.value.id != p.clear ==>
                  p.add.value.id in after && SameOperation(after[p.add.value.id], p.add.value.operation))
            && (p.clear != "" ==> p.clear !in after)
  {
  }

  /** No lost update: an accepted patch changes what it names, all of it, and
      nothing else, and never grows the operation set past its bound. */
  lemma {:induction false} AcceptedPatchIsExact(s: Status, p: Patch)
    requires Accepts(s, p)
    requires |s.operations| <= MAX_ACTIVE_OPERATIONS
    ensures ChangesOnlyNamed(p, s, Updated(s, p))
    ensures CarriesNamed(p, Updated(s, p))
    ensures |Updated(s, p).operations| <= MAX_ACTIVE_OPERATIONS
  {
    OperationsStayWithin(s.operations, p);
    OperationsAreExact(s.operations, p);
  }

  /** Which patches a status accepts, field by field: for each record it carries,
      the status holds none of the same incarnation or the same one, whatever the
      clock that wrote its time; and an added operation is already there the same,
      or is new and fits beside what is not reconciled away. */
  lemma {:induction false} AcceptsExactly(s: Status, p: Patch)
    ensures Accepts(s, p) <==>
            && (p.terminal.Some? && s.terminal.Some? ==>
                  var a, b := s.terminal.value, p.terminal.value;
                  a.uid != b.uid || (a.kind == b.kind && a.reason == b.reason && a.at.instant == b.at.instant))
            && (p.noChange.Some? && s.noChange.Some? ==>
                  var a, b := s.noChange.value, p.noChange.value;
                  a.uid != b.uid || (a.criteria == b.criteria && a.evidence == b.evidence && a.at.instant == b.at.instant))
            && (p.surface.Some? && s.surface.Some? ==>
                  var a, b := s.surface.value, p.surface.value;
                  a.uid != b.uid || (a.schemaVersion == b.schemaVersion && a.digest == b.digest && a.at.instant == b.at.instant))
            && (p.add.Some? ==>
                  var k, b := p.add.value.id, p.add.value.operation;
                  if !p.reconcile && k in s.operations
                  then s.operations[k].briefId == b.briefId && s.operations[k].coordinatorUid == b.coordinatorUid
                       && s.operations[k].workerUid == b.workerUid && s.operations[k].dispatchedAt.instant == b.dispatchedAt.instant
                  else p.reconcile || |s.operations| < MAX_ACTIVE_OPERATIONS)
  {
  }

  lemma {:induction false} SubsetSize<T>(a: set<T>, b: set<T>)
    requires a <= b
    ensures |a| <= |b|
  {
    assert b == a + (b - a);
  }

  /** Applying the same operation edit twice is applying it once. */
  lemma {:induction false} OperationsIdempotent(operations: Operations, p: Patch)
    ensures OperationsAfter(OperationsAfter(operations, p), p) == OperationsAfter(operations, p)
  {
  }

  /** The entry a patch added is still acceptable to the patch that added it. */
  lemma {:induction false} AdditionStaysAcceptable(operations: Operations, p: Patch)
    requires p.add.Some? && !p.reconcile
    requires if p.add.value.id in operations
             then SameOperation(operations[p.add.value.id], p.add.value.operation)
             else |operations| < MAX_ACTIVE_OPERATIONS
    requires |operations| <= MAX_ACTIVE_OPERATIONS
    ensures var once := OperationsAfter(operations, p);
            if p.add.value.id in once
            then SameOperation(once[p.add.value.id], p.add.value.operation)
            else |once| < MAX_ACTIVE_OPERATIONS
  {
    var once := OperationsAfter(operations, p);
    if p.add.value.id !in once {
      // Only the patch's own clear can have removed what it added.
      assert once.Keys == operations.Keys - {p.add.value.id};
      RemovedSize(operations.Keys, p.add.value.id);
    }
  }

  lemma {:induction false} RemovedSize<T>(s: set<T>, x: T)
    ensures |s - {x}| == if x in s then |s| - 1 else |s|
  {
    if x in s {
      assert s == (s - {x}) + {x};
    } else {
      assert s - {x} == s;
    }
  }

  /** Safe retry: the writer may repeat a patch whose acknowledgement was lost.
      The repeat is accepted and leaves exactly the status the first write left. */
  lemma {:induction false} RetryIsIdempotent(s: Status, p: Patch)
    requires Accepts(s, p)
    requires |s.operations| <= MAX_ACTIVE_OPERATIONS
    ensures Accepts(Updated(s, p), p)
    ensures Updated(Updated(s, p), p) == Updated(s, p)
  {
    OperationsIdempotent(s.operations, p);
    if p.add.Some? && !p.reconcile {
      AdditionStaysAcceptable(s.operations, p);
    }
  }
}
