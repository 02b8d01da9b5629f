/** The trusted status writer: one authenticated patch, validated against a fresh
    read of the run and its pods on every compare-and-set attempt
    (internal/broker/status.go, StatusWriter.Write). */
module StatusWriter {
  import opened Options
  import opened StatusRecords
  import opened Text

  /** The run and control-pod incarnation established by authentication. */
  datatype Identity = Identity(runUid: Uid, controlPod: string, controlPodUid: Uid, serviceAccount: string)

  /** `terminating` is a set deletion timestamp; `ownerRun` the controller owner
      when there is exactly one and it is a CoderRun; `coordinator` says that the
      run and component labels are those of this run's coordinator. */
  datatype Pod = Pod(name: string, uid: Uid, terminating: bool, serviceAccount: string,
                     ownerRun: Option<Uid>, coordinator: bool)

  datatype Run = Run(uid: Uid, deleting: bool, status: Status)

  datatype WriteError = Denied | Unavailable | Conflicted

  // ---- checks made before any live read ----

  const NATIVE_RESULT_KINDS: set<string> :=
    {"published", "no_change", "needs_human", "blocked_external",
     "capacity_exhausted", "workload_failed", "infrastructure_failed"}

  predicate ValidTerminal(r: NativeResult) {
    r.kind in NATIVE_RESULT_KINDS && !r.at.IsZero() && ByteLength(r.reason) <= 1024
  }

  predicate IsDigest(s: string) {
    |s| == 71 && s[..7] == "sha256:" && forall i | 7 <= i < 71 :: '0' <= s[i] <= '9' || 'a' <= s[i] <= 'f'
  }

  predicate ValidSurface(r: ModelSurface) {
    r.schemaVersion >= 1 && IsDigest(r.digest) && !r.at.IsZero() && r.uid != "" && ByteLength(r.uid) <= 128
  }

  predicate IsControl(c: char) {
    c < ' ' || '\U{7F}' <= c <= '\U{9F}'
  }

  /** The canonical repository-relative path grammar. */
  predicate ValidClosePath(path: string) {
    && path != "" && ByteLength(path) <= 1024 && TrimSpace(path) == path
    && (forall i | 0 <= i < |path| :: path[i] != '\\' && !IsControl(path[i]))
    && forall i | 0 <= i < |Split(path, '/')| :: Split(path, '/')[i] !in {"", ".", ".."}
  }

  /** A grounded criterion row: the floor of the excerpt counts characters, the ceilings bytes. */
  predicate ValidCloseCriterion(c: CloseCriterion) {
    && c.criterion != "" && ByteLength(c.criterion) <= 300
    && ValidClosePath(c.path)
    && |c.excerpt| >= 24 && ByteLength(c.excerpt) <= 300
  }

  predicate ValidNoChange(r: NoChangeClose) {
    && 1 <= |r.criteria| <= 12 && ByteLength(r.evidence) <= 2000 && !r.at.IsZero() && r.uid != "" && ByteLength(r.uid) <= 128
    && forall i | 0 <= i < |r.criteria| :: ValidCloseCriterion(r.criteria[i])
  }

  predicate ValidOperationId(id: string) {
    id != "" && |id| <= 128
    && forall c | c in id ::
         'a' <= c <= 'z' || 'A' <= c <= 'Z' || '0' <= c <= '9' || c == '.' || c == '-' || c == '_'
  }

  predicate IsEmpty(p: Patch) {
    p == Patch(None, None, None, None, None, None, None, None, "", false)
  }

  /** The patch is well formed and attributes every record it carries to the
      authenticated incarnation. */
  predicate Admissible(id: Identity, p: Patch) {
    && id.runUid != "" && id.controlPod != "" && id.controlPodUid != "" && id.serviceAccount != ""
    && !IsEmpty(p)
    && (p.ack.Some? ==> p.ack.value.id != "" && !p.ack.value.at.IsZero())
    && (p.terminal.Some? ==> ValidTerminal(p.terminal.value) && p.terminal.value.uid == id.controlPodUid)
    && (p.noChange.Some? ==> ValidNoChange(p.noChange.value) && p.noChange.value.uid == id.controlPodUid)
    && (p.surface.Some? ==> ValidSurface(p.surface.value) && p.surface.value.uid == id.controlPodUid)
    && (p.heartbeat.Some? ==> p.heartbeat.value.uid == id.controlPodUid)
    && (p.add.Some? ==>
        && ValidOperationId(p.add.value.id) && ValidOperationId(p.add.value.operation.briefId)
        && p.add.value.operation.coordinatorUid == id.controlPodUid
        && p.add.value.operation.workerUid != "")
  }

  // ---- checks against live reads ----

  /** The named pod is the authenticated incarnation and belongs to this run. */
  predicate IsAuthenticatedPod(id: Identity, pod: Pod) {
    pod.uid == id.controlPodUid && !pod.terminating && pod.serviceAccount == id.serviceAccount
    && pod.ownerRun == Some(id.runUid) && pod.coordinator
  }

  /** A pod that counts as a live control pod of the run. */
  predicate IsControlPod(id: Identity, pod: Pod) {
    !pod.terminating && pod.serviceAccount == id.serviceAccount && pod.ownerRun == Some(id.runUid)
  }

  function ControlPods(id: Identity, pods: seq<Pod>): seq<Pod> {
    if pods == [] then []
    else (if IsControlPod(id, pods[0]) then [pods[0]] else []) + ControlPods(id, pods[1..])
  }

  /** The listing shows exactly one live control pod, and it is the authenticated one. */
  predicate IsSoleIncarnation(id: Identity, pods: seq<Pod>) {
    var control := ControlPods(id, pods);
    |control| == 1 && control[0].uid == id.controlPodUid && control[0].name == id.controlPod
  }

  /** An acknowledgement names the live request aimed at this incarnation. */
  predicate AckFences(id: Identity, p: Patch, s: Status) {
    p.ack.Some? ==> s.request.Some? && s.request.value.id == p.ack.value.id
                    && s.request.value.targetPodUid == id.controlPodUid
  }

  lemma {:induction false} ControlPodsConcat(id: Identity, a: seq<Pod>, b: seq<Pod>)
    ensures ControlPods(id, a + b) == ControlPods(id, a) + ControlPods(id, b)
  {
    if a == [] {
      assert a + b == b;
    } else {
      assert (a + b)[1..] == a[1..] + b;
      ControlPodsConcat(id, a[1..], b);
    }
  }

  lemma {:induction false} ControlPodListed(id: Identity, pods: seq<Pod>, k: nat)
    requires k < |pods| && IsControlPod(id, pods[k])
    ensures pods[k] in ControlPods(id, pods)
  {
    if k > 0 {
      ControlPodListed(id, pods[1..], k - 1);
    }
  }

  /** What the listing check buys: every live control pod in a complete listing
      is the authenticated one, and the authenticated one is in it. */
  lemma {:induction false} SoleIncarnation(id: Identity, pods: seq<Pod>)
    requires IsSoleIncarnation(id, pods)
    ensures forall pod | pod in pods && IsControlPod(id, pod) :: pod.uid == id.controlPodUid
    ensures exists pod | pod in pods :: IsControlPod(id, pod) && pod.uid == id.controlPodUid
  {
    forall pod | pod in pods && IsControlPod(id, pod)
      ensures pod.uid == id.controlPodUid
    {
      var k :| 0 <= k < |pods| && pods[k] == pod;
      ControlPodListed(id, pods, k);
    }
    ControlPodsAreListed(id, pods);
    assert ControlPods(id, pods)[0] in pods;
  }

  /** Pod `k` is the caller's, live and under this run and account, and no other
      pod of the listing is. */
  predicate IsOnlyControlPod(id: Identity, pods: seq<Pod>, k: nat) {
    && k < |pods| && pods[k].uid == id.controlPodUid && pods[k].name == id.controlPod
    && !pods[k].terminating && pods[k].serviceAccount == id.serviceAccount && pods[k].ownerRun == Some(id.runUid)
    && forall i | 0 <= i < |pods| && i != k ::
         pods[i].terminating || pods[i].serviceAccount != id.serviceAccount || pods[i].ownerRun != Some(id.runUid)
  }

  lemma {:induction false} SoleIncarnationExactly(id: Identity, pods: seq<Pod>)
    ensures IsSoleIncarnation(id, pods) <==> exists k: nat :: IsOnlyControlPod(id, pods, k)
  {
    if IsSoleIncarnation(id, pods) {
      var k := SoleIndex(id, pods);
      assert IsOnlyControlPod(id, pods, k);
    }
    if k: nat :| IsOnlyControlPod(id, pods, k) {
      SoleIsCounted(id, pods, k);
    }
  }

  lemma {:induction false} NoControlPods(id: Identity, pods: seq<Pod>)
    ensures ControlPods(id, pods) == [] <==> forall i | 0 <= i < |pods| :: !IsControlPod(id, pods[i])
  {
    if pods != [] {
      NoControlPods(id, pods[1..]);
      assert forall i | 0 < i < |pods| :: pods[i] == pods[1..][i - 1];
    }
  }

  lemma {:induction false} SoleIndex(id: Identity, pods: seq<Pod>) returns (k: nat)
    requires |ControlPods(id, pods)| == 1
    ensures k < |pods| && pods[k] == ControlPods(id, pods)[0] && IsControlPod(id, pods[k])
    ensures forall i | 0 <= i < |pods| && i != k :: !IsControlPod(id, pods[i])
  {
    assert forall i | 0 < i < |pods| :: pods[i] == pods[1..][i - 1];
    if IsControlPod(id, pods[0]) {
      NoControlPods(id, pods[1..]);
      k := 0;
    } else {
      k := SoleIndex(id, pods[1..]);
      k := k + 1;
    }
  }

  lemma {:induction false} SoleIsCounted(id: Identity, pods: seq<Pod>, k: nat)
    requires k < |pods| && IsControlPod(id, pods[k]) && forall i | 0 <= i < |pods| && i != k :: !IsControlPod(id, pods[i])
    ensures ControlPods(id, pods) == [pods[k]]
  {
    assert forall i | 0 < i < |pods| :: pods[i] == pods[1..][i - 1];
    if k == 0 {
      NoControlPods(id, pods[1..]);
    } else {
      SoleIsCounted(id, pods[1..], k - 1);
    }
  }

  lemma {:induction false} ControlPodsAreListed(id: Identity, pods: seq<Pod>)
    ensures forall pod | pod in ControlPods(id, pods) :: pod in pods && IsControlPod(id, pod)
  {
    if pods != [] {
      ControlPodsAreListed(id, pods[1..]);
    }
  }

  /** The counting loop over the pod listing, in the order the source runs it. */
  method CheckListing(id: Identity, pods: seq<Pod>) returns (ok: bool)
    ensures ok <==> IsSoleIncarnation(id, pods)
  {
    var current := 0;
    for i := 0 to |pods|
      invariant current == |ControlPods(id, pods[..i])|
      invariant forall pod | pod in ControlPods(id, pods[..i]) :: pod.uid == id.controlPodUid && pod.name == id.controlPod
    {
      var candidate := pods[i];
      assert pods[..i + 1] == pods[..i] + [candidate];
      ControlPodsConcat(id, pods[..i], [candidate]);
      if !candidate.terminating && candidate.serviceAccount == id.serviceAccount && candidate.ownerRun == Some(id.runUid) {
        current := current + 1;
        if candidate.uid != id.controlPodUid || candidate.name != id.controlPod {
          ControlPodListed(id, pods, i);
          return false;
        }
      }
    }
    assert pods[..|pods|] == pods;
    ok := current == 1;
  }

  /** The operation-map edit: reconcile, then add, then clear. */
  method EditOperations(operations: Operations, patch: Patch) returns (r: Result<Operations, WriteError>)
    ensures r.Ok? <==> AcceptsOperations(operations, patch)
    ensures r.Ok? ==> r.value == OperationsAfter(operations, patch)
  {
    var edited := operations;
    if patch.reconcile {
      edited := map[];
    }
    if patch.add.Some? {
      var id := patch.add.value.id;
      if id in edited {
        if !SameOperation(edited[id], patch.add.value.operation) {
          return Err(Denied);
        }
      } else {
        if |edited| >= MAX_ACTIVE_OPERATIONS {
          return Err(Denied);
        }
        edited := edited[id := patch.add.value.operation];
      }
    }
    if patch.clear != "" {
      edited := edited - {patch.clear};
    }
    return Ok(edited);
  }

  /** The three set-once records, refused on a contradiction for the same incarnation. */
  method EditRecords(run: Status, patch: Patch) returns (r: Result<Status, WriteError>)
    ensures r.Ok? <==> AcceptsRecords(run, patch)
    ensures r.Ok? ==> r.value == run.(terminal := OrElse(patch.terminal, run.terminal),
                                      noChange := OrElse(patch.noChange, run.noChange),
                                      surface := OrElse(patch.surface, run.surface))
  {
    var s := run;
    if patch.terminal.Some? {
      if s.terminal.Some? && s.terminal.value.uid == patch.terminal.value.uid
         && !SameTerminal(s.terminal.value, patch.terminal.value) {
        return Err(Denied);
      }
      s := s.(terminal := patch.terminal);
    }
    if patch.noChange.Some? {
      if s.noChange.Some? && s.noChange.value.uid == patch.noChange.value.uid
         && !SameNoChange(s.noChange.value, patch.noChange.value) {
        return Err(Denied);
      }
      s := s.(noChange := patch.noChange);
    }
    if patch.surface.Some? {
      if s.surface.Some? && s.surface.value.uid == patch.surface.value.uid
         && !SameSurface(s.surface.value, patch.surface.value) {
        return Err(Denied);
      }
      s := s.(surface := patch.surface);
    }
    return Ok(s);
  }

  /** The edit of one copied status, field by field as the source performs it:
      it succeeds exactly when no recorded evidence contradicts the patch, and
      then yields the patched status. */
  method Edit(run: Status, patch: Patch) returns (r: Result<Status, WriteError>)
    ensures r.Ok? <==> Accepts(run, patch)
    ensures r.Ok? ==> r.value == Updated(run, patch)
  {
    var s := run;
    if patch.checkpoint.Some? { s := s.(checkpoint := patch.checkpoint); }
    if patch.heartbeat.Some? { s := s.(heartbeat := patch.heartbeat); }
    if patch.lastCommit.Some? { s := s.(lastCommit := patch.lastCommit.value); }
    if patch.ack.Some? { s := s.(ack := patch.ack); }
    var records := EditRecords(s, patch);
    if records.Err? {
      return records;
    }
    var operations := EditOperations(run.operations, patch);
    if operations.Err? {
      return Err(operations.error);
    }
    return Ok(records.value.(operations := operations.value));
  }

  // ---- the compare-and-set loop ----

  datatype Author = Author(id: Identity, patch: Patch)

  /** One persisted version of the run's status, and the harness write that
      produced it (none for any other writer). */
  datatype Version = Version(status: Status, author: Option<Author>)

  /** `next` is the one harness write that turns `prev` into its patched successor. */
  predicate IsLanding(id: Identity, p: Patch, prev: Version, next: Version) {
    && AckFences(id, p, prev.status) && Accepts(prev.status, p)
    && next == Version(Updated(prev.status, p), Some(Author(id, p)))
  }

  /** The stored run: its version history, whose length is the resource version. */
  class RunStore {
    var history: seq<Version>

    constructor (initial: Status)
      ensures history == [Version(initial, None)]
    {
      history := [Version(initial, None)];
    }

    /** Writes of others: the controller, or other calls of this writer. */
    method Interfere(versions: seq<Version>)
      modifies this
      ensures history == old(history) + versions
    {
      for i := 0 to |versions|
        invariant history == old(history) + versions[..i]
      {
        history := history + [versions[i]];
      }
      assert versions[..|versions|] == versions;
    }

    /** The status update carries the version it was computed from. */
    method Update(read: nat, next: Version) returns (landed: bool)
      modifies this
      ensures landed <==> read == |old(history)|
      ensures history == if landed then old(history) + [next] else old(history)
    {
      landed := read == |history|;
      if landed {
        history := history + [next];
      }
    }
  }

  datatype RunRead = RunFound(uid: Uid, deleting: bool) | RunMissing | RunReadFailed

  datatype PodRead = PodFound(pod: Pod) | PodMissing | PodReadFailed

  datatype Verdict = Holds | Contradicted | ValidatorUnavailable

  /** An update request is delivered and answered, lost on the way, or delivered
      with its answer lost. */
  datatype Delivery = Answered | RequestLost | AnswerLost

  /** What one attempt meets: the versions that others land before its read of the
      run, its three reads, the live-world validator, the versions that others land
      between its read and its update, and the update's fate. */
  datatype Attempt = Attempt(earlier: seq<Version>, run: RunRead, pod: PodRead, pods: Option<seq<Pod>>, verdict: Verdict,
                             interference: seq<Version>, delivery: Delivery)

  const RETRY_STEPS: nat := 5

  /** The three reads clear the caller. */
  predicate IsCurrent(id: Identity, a: Attempt) {
    && a.run.RunFound? && a.run.uid == id.runUid && !a.run.deleting
    && a.pod.PodFound? && IsAuthenticatedPod(id, a.pod.pod)
    && a.pods.Some? && IsSoleIncarnation(id, a.pods.value)
  }

  /** Everything an attempt must observe before it may update. */
  predicate Cleared(id: Identity, a: Attempt, guarded: bool) {
    IsCurrent(id, a) && (guarded ==> a.verdict.Holds?)
  }

  /** What an attempt has observed when it may update: the run is the caller's and
      not being deleted, the pod read under the caller's name is its live incarnation,
      owned by the run under its account and labels, no other live pod of the run and
      account is listed, and the validator, where there is one, holds. */
  lemma {:induction false} ClearedExactly(id: Identity, a: Attempt, guarded: bool)
    ensures Cleared(id, a, guarded) <==>
            && a.run == RunFound(id.runUid, false)
            && a.pod.PodFound? && a.pod.pod.uid == id.controlPodUid && !a.pod.pod.terminating
            && a.pod.pod.serviceAccount == id.serviceAccount && a.pod.pod.ownerRun == Some(id.runUid) && a.pod.pod.coordinator
            && a.pods.Some? && (exists k: nat :: IsOnlyControlPod(id, a.pods.value, k))
            && (guarded ==> a.verdict == Holds)
  {
    if a.pods.Some? {
      SoleIncarnationExactly(id, a.pods.value);
    }
  }

  /** A commit is recorded only under a live-world validator. */
  predicate MayWrite(id: Identity, p: Patch, guarded: bool) {
    Admissible(id, p) && (p.lastCommit.Some? ==> guarded)
  }

  /** Which writes are let through to the live reads, field by field: a complete
      identity, something to write, a validator beside a commit, and records that
      name the caller's incarnation and are well formed. */
  lemma {:induction false} MayWriteExactly(id: Identity, p: Patch, guarded: bool)
    ensures MayWrite(id, p, guarded) <==>
            && id.runUid != "" && id.controlPod != "" && id.controlPodUid != "" && id.serviceAccount != ""
            && (|| p.checkpoint.Some? || p.heartbeat.Some? || p.lastCommit.Some? || p.ack.Some? || p.terminal.Some?
                || p.noChange.Some? || p.surface.Some? || p.add.Some? || p.clear != "" || p.reconcile)
            && (p.lastCommit.Some? ==> guarded)
            && (p.heartbeat.Some? ==> p.heartbeat.value.uid == id.controlPodUid)
            && (p.ack.Some? ==> p.ack.value.id != "" && p.ack.value.at.instant != 0)
            && (p.terminal.Some? ==>
                  var r := p.terminal.value;
                  && r.uid == id.controlPodUid && r.at.instant != 0 && ByteLength(r.reason) <= 1024
                  && (|| r.kind == "published" || r.kind == "no_change" || r.kind == "needs_human" || r.kind == "blocked_external"
                      || r.kind == "capacity_exhausted" || r.kind == "workload_failed" || r.kind == "infrastructure_failed"))
            && (p.surface.Some? ==>
                  var r := p.surface.value;
                  && r.uid == id.controlPodUid && r.at.instant != 0 && ByteLength(r.uid) <= 128 && r.schemaVersion >= 1
                  && |r.digest| == 7 + 64 && "sha256:" <= r.digest
                  && forall i | 7 <= i < 71 :: '0' <= r.digest[i] <= '9' || 'a' <= r.digest[i] <= 'f')
            && (p.noChange.Some? ==>
                  var r := p.noChange.value;
                  && r.uid == id.controlPodUid && r.at.instant != 0 && ByteLength(r.uid) <= 128
                  && 1 <= |r.criteria| <= 12 && ByteLength(r.evidence) <= 2000
                  && forall i | 0 <= i < |r.criteria| ::
                       && r.criteria[i].criterion != "" && ByteLength(r.criteria[i].criterion) <= 300
                       && |r.criteria[i].excerpt| >= 24 && ByteLength(r.criteria[i].excerpt) <= 300
                       && ValidClosePath(r.criteria[i].path))
            && (p.add.Some? ==>
                  && IsToken(p.add.value.id) && IsToken(p.add.value.operation.briefId)
                  && p.add.value.operation.coordinatorUid == id.controlPodUid && p.add.value.operation.workerUid != "")
  {
    if p.add.Some? {
      TokensExactly(p.add.value.id);
      TokensExactly(p.add.value.operation.briefId);
    }
    if p.surface.Some? && |p.surface.value.digest| == 71 {
      DigestPrefix(p.surface.value.digest);
    }
  }

  /** Between 1 and 128 characters, of letters, digits, points, hyphens and underscores. */
  predicate IsToken(s: string) {
    1 <= |s| <= 128
    && forall i | 0 <= i < |s| :: !(s[i] < '-' || s[i] == '/' || '9' < s[i] < 'A' || 'Z' < s[i] < '_' || s[i] == '`' || 'z' < s[i])
  }

  lemma {:induction false} TokensExactly(id: string)
    ensures ValidOperationId(id) <==> IsToken(id)
  {
    assert ValidOperationId(id) ==> forall i | 0 <= i < |id| :: id[i] in id;
  }

  lemma {:induction false} DigestPrefix(s: string)
    requires |s| >= 7
    ensures s[..7] == "sha256:" <==> "sha256:" <= s
  {
  }

  /** A path that a record may name has no empty, current or parent component, and
      no character that could hide one. */
  lemma {:induction false} ClosePathStaysBelow(path: string)
    requires ValidClosePath(path)
    ensures 0 < |path| && ByteLength(path) <= 1024 && TrimSpace(path) == path
    ensures forall i | 0 <= i < |path| :: path[i] >= ' ' && path[i] != '\\' && !('\U{7F}' <= path[i] <= '\U{9F}')
    ensures "" !in Split(path, '/') && "." !in Split(path, '/') && ".." !in Split(path, '/')
  {
  }

  /** So it is relative, and every slash stands between two components. */
  lemma {:induction false} SlashesSeparate(path: string, i: nat)
    requires i < |path| && path[i] == '/' && "" !in Split(path, '/')
    ensures 0 < i && i + 1 < |path|
    ensures path[i + 1] != '/'
  {
    if i == 0 {
      EmptyBefore(path);
    }
    if i + 1 == |path| || path[i + 1] == '/' {
      var j := EmptyAfter(path, i);
    }
  }

  lemma {:induction false} EmptyBefore(s: string)
    requires s != "" && s[0] == '/'
    ensures "" in Split(s, '/')
  {
    assert Split(s, '/')[0] == "";
  }

  /** Nothing between two separators, or after the last, is an empty part. */
  lemma {:induction false} EmptyAfter(s: string, i: nat) returns (j: nat)
    requires i < |s| && s[i] == '/' && (i + 1 == |s| || s[i + 1] == '/')
    ensures 1 <= j < |Split(s, '/')| && Split(s, '/')[j] == ""
  {
    if i == 0 {
      assert Split(s[1..], '/')[0] == "";
      j := 1;
    } else {
      j := EmptyAfter(s[1..], i - 1);
      j := if s[0] == '/' then j + 1 else j;
    }
  }

  /** The validation half of one attempt, in the source's order. A current caller
      whose acknowledgement does not fence is denied, whatever the validator says. */
  method Validate(id: Identity, patch: Patch, status: Status, a: Attempt, guarded: bool) returns (r: Result<(), WriteError>)
    ensures r.Ok? <==>
            && Cleared(id, a, guarded)
            && (patch.ack.Some? ==> && status.request.Some? && status.request.value.id == patch.ack.value.id
                                    && status.request.value.targetPodUid == id.controlPodUid)
    ensures IsCurrent(id, a) && !AckFences(id, patch, status) ==> r == Err(Denied)
    ensures r == Err(Unavailable) <==>
            || a.run.RunReadFailed?
            || (a.run == RunFound(id.runUid, false) && a.pod.PodReadFailed?)
            || (a.run == RunFound(id.runUid, false) && a.pod.PodFound? && IsAuthenticatedPod(id, a.pod.pod) && a.pods.None?)
            || (IsCurrent(id, a) && AckFences(id, patch, status) && guarded && a.verdict.ValidatorUnavailable?)
    ensures r != Err(Conflicted)
  {
    match a.run {
      case RunMissing => return Err(Denied);
      case RunReadFailed => return Err(Unavailable);
      case RunFound(uid, deleting) =>
        if uid != id.runUid || deleting { return Err(Denied); }
    }
    match a.pod {
      case PodMissing => return Err(Denied);
      case PodReadFailed => return Err(Unavailable);
      case PodFound(pod) =>
        if pod.uid != id.controlPodUid || pod.terminating || pod.serviceAccount != id.serviceAccount { return Err(Denied); }
        if pod.ownerRun != Some(id.runUid) || !pod.coordinator { return Err(Denied); }
    }
    if a.pods.None? { return Err(Unavailable); }
    var sole := CheckListing(id, a.pods.value);
    if !sole { return Err(Denied); }
    if patch.ack.Some? {
      if status.request.None? || status.request.value.id != patch.ack.value.id { return Err(Denied); }
      if status.request.value.targetPodUid != id.controlPodUid { return Err(Denied); }
    }
    if !guarded { return Ok(()); }
    match a.verdict {
      case Holds => return Ok(());
      case Contradicted => return Err(Denied);
      case ValidatorUnavailable => return Err(Unavailable);
    }
  }

  // ---- what a write does to the history ----

  /** The attempt gets as far as its update. */
  predicate Proceeds(h: seq<Version>, id: Identity, p: Patch, a: Attempt, guarded: bool) {
    var read := h + a.earlier;
    && |read| > 0 && Cleared(id, a, guarded)
    && AckFences(id, p, read[|read| - 1].status) && Accepts(read[|read| - 1].status, p)
  }

  /** Its update meets the version that it read. */
  predicate Lands(h: seq<Version>, id: Identity, p: Patch, a: Attempt, guarded: bool) {
    Proceeds(h, id, p, a, guarded) && a.interference == [] && !a.delivery.RequestLost?
  }

  /** Its update was answered with a conflict. */
  predicate Retries(h: seq<Version>, id: Identity, p: Patch, a: Attempt, guarded: bool) {
    Proceeds(h, id, p, a, guarded) && a.interference != [] && a.delivery.Answered?
  }

  function Successor(h: seq<Version>, id: Identity, p: Patch): Version
    requires |h| > 0
  {
    Version(Updated(h[|h| - 1].status, p), Some(Author(id, p)))
  }

  /** The history after one attempt: what others wrote, and the landed version. */
  function AttemptHistory(h: seq<Version>, id: Identity, p: Patch, a: Attempt, guarded: bool): seq<Version> {
    if Lands(h, id, p, a, guarded) then h + a.earlier + [Successor(h + a.earlier, id, p)] else h + a.earlier + a.interference
  }

  function WriteHistory(h: seq<Version>, id: Identity, p: Patch, attempts: seq<Attempt>, guarded: bool): seq<Version>
    decreases |attempts|
  {
    if attempts == [] then h
    else
      var next := AttemptHistory(h, id, p, attempts[0], guarded);
      if Retries(h, id, p, attempts[0], guarded) then WriteHistory(next, id, p, attempts[1..], guarded) else next
  }

  /** The call answers with success: the first attempt that does not conflict
      lands, and its answer arrives. */
  predicate WriteSucceeds(h: seq<Version>, id: Identity, p: Patch, attempts: seq<Attempt>, guarded: bool)
    decreases |attempts|
  {
    && attempts != []
    && if Retries(h, id, p, attempts[0], guarded)
       then WriteSucceeds(AttemptHistory(h, id, p, attempts[0], guarded), id, p, attempts[1..], guarded)
       else Lands(h, id, p, attempts[0], guarded) && attempts[0].delivery.Answered?
  }

  /** A write that nobody disturbs succeeds with its first attempt, and adds the
      patched successor of the version it found. */
  lemma {:induction false} UndisturbedWriteLands(h: seq<Version>, id: Identity, p: Patch, attempts: seq<Attempt>, guarded: bool)
    requires h != [] && attempts != [] && attempts[0].earlier == [] && attempts[0].interference == [] && attempts[0].delivery.Answered?
    requires Cleared(id, attempts[0], guarded) && Accepts(h[|h| - 1].status, p)
    requires p.ack.Some? ==> h[|h| - 1].status.request == Some(ControlRequest(p.ack.value.id, id.controlPodUid))
    ensures WriteSucceeds(h, id, p, attempts, guarded)
    ensures WriteHistory(h, id, p, attempts, guarded) == h + [Version(Updated(h[|h| - 1].status, p), Some(Author(id, p)))]
  {
    assert h + attempts[0].earlier == h;
  }

  /** What others wrote during the given attempts. */
  function Others(attempts: seq<Attempt>): seq<Version> {
    if attempts == [] then []
    else
      var last := attempts[|attempts| - 1];
      Others(attempts[..|attempts| - 1]) + (last.earlier + last.interference)
  }

  /** `after` extends `before` by what others wrote, and by nothing of this call. */
  ghost predicate OnlyOthersWrote(before: seq<Version>, after: seq<Version>, attempts: seq<Attempt>) {
    exists k: nat :: k <= |attempts| && after == before + Others(attempts[..k])
  }

  /** `after` extends `before` by what others wrote and one final landing of this call. */
  ghost predicate LandedOnce(id: Identity, p: Patch, before: seq<Version>, after: seq<Version>, attempts: seq<Attempt>) {
    exists k: nat :: k <= |attempts| && IsLandingAfter(id, p, before + Others(attempts[..k]), after)
  }

  predicate IsLandingAfter(id: Identity, p: Patch, h: seq<Version>, after: seq<Version>) {
    |after| == |h| + 1 && |h| > 0 && after[..|h|] == h && IsLanding(id, p, h[|h| - 1], after[|h|])
  }

  /** Write: up to RETRY_STEPS attempts, each from fresh reads, until one does
      not conflict. `guarded` says that the caller supplied a validator. Success
      means exactly one version of this call landed, on top of the version it was
      computed from; a denial or a spent retry budget landed none; only an
      unavailable answer leaves open whether the one landed. */
  method Write(store: RunStore, id: Identity, patch: Patch, guarded: bool, attempts: seq<Attempt>)
    returns (r: Result<(), WriteError>)
    requires |attempts| == RETRY_STEPS
    requires |store.history| > 0
    modifies store
    ensures store.history == if MayWrite(id, patch, guarded) then WriteHistory(old(store.history), id, patch, attempts, guarded)
                             else old(store.history)
    ensures !MayWrite(id, patch, guarded) ==> r == Err(Denied)
    ensures MayWrite(id, patch, guarded) ==> (r.Ok? <==> WriteSucceeds(old(store.history), id, patch, attempts, guarded))
    ensures || OnlyOthersWrote(old(store.history), store.history, attempts)
            || LandedOnce(id, patch, old(store.history), store.history, attempts)
    ensures r.Ok? ==> LandedOnce(id, patch, old(store.history), store.history, attempts)
                      && exists a | a in attempts :: Cleared(id, a, guarded)
    ensures r == Err(Denied) || r == Err(Conflicted) ==> OnlyOthersWrote(old(store.history), store.history, attempts)
  {
    ghost var before := store.history;
    WriteBegins(before, attempts, id, patch, guarded);
    if !Admissible(id, patch) {
      return Err(Denied);
    }
    if patch.lastCommit.Some? && !guarded {
      return Err(Denied);
    }
    for i := 0 to RETRY_STEPS
      invariant IsBetween(before, attempts, i, store.history, id, patch, guarded)
    {
      ghost var h := store.history;
      var done := TryOnce(store, id, patch, guarded, attempts[i]);
      AttemptAdvances(before, attempts, i, h, id, patch, guarded);
      if done.Some? {
        return done.value;
      }
    }
    WriteEnds(before, attempts, store.history, id, patch, guarded);
    return Err(Conflicted);
  }

  /** One attempt; None means that its update conflicted. */
  method TryOnce(store: RunStore, id: Identity, patch: Patch, guarded: bool, attempt: Attempt)
    returns (done: Option<Result<(), WriteError>>)
    requires |store.history| > 0
    modifies store
    ensures store.history == AttemptHistory(old(store.history), id, patch, attempt, guarded)
    ensures done.None? <==> Retries(old(store.history), id, patch, attempt, guarded)
    ensures done.Some? && done.value.Ok? <==> Lands(old(store.history), id, patch, attempt, guarded) && attempt.delivery.Answered?
    ensures done == Some(Err(Denied)) || done == Some(Err(Conflicted)) ==> !Proceeds(old(store.history), id, patch, attempt, guarded)
  {
    store.Interfere(attempt.earlier);
    ghost var h := store.history;
    var read := |store.history|;
    var status := store.history[read - 1].status;
    store.Interfere(attempt.interference);
    assert attempt.interference == [] ==> store.history == h;
    var valid := Validate(id, patch, status, attempt, guarded);
    if valid.Err? {
      return Some(valid);
    }
    var edited := Edit(status, patch);
    if edited.Err? {
      return Some(Err(edited.error));
    }
    if attempt.delivery.RequestLost? {
      return Some(Err(Unavailable));
    }
    var landed := store.Update(read, Version(edited.value, Some(Author(id, patch))));
    if landed {
      return Some(if attempt.delivery.Answered? then Ok(()) else Err(Unavailable));
    }
    return if attempt.delivery.AnswerLost? then Some(Err(Unavailable)) else None;
  }

  /** After `i` attempts that all conflicted. */
  ghost predicate IsBetween(
    before: seq<Version>, attempts: seq<Attempt>, i: nat, h: seq<Version>, id: Identity, p: Patch, guarded: bool) {
    && |h| > 0 && i <= |attempts| && h == before + Others(attempts[..i])
    && WriteHistory(h, id, p, attempts[i..], guarded) == WriteHistory(before, id, p, attempts, guarded)
    && WriteSucceeds(h, id, p, attempts[i..], guarded) == WriteSucceeds(before, id, p, attempts, guarded)
  }

  lemma {:induction false} WriteBegins(before: seq<Version>, attempts: seq<Attempt>, id: Identity, p: Patch, guarded: bool)
    requires |before| > 0
    ensures IsBetween(before, attempts, 0, before, id, p, guarded) && OnlyOthersWrote(before, before, attempts)
  {
    assert attempts[0..] == attempts;
    assert before == before + Others(attempts[..0]);
  }

  lemma {:induction false} WriteEnds(before: seq<Version>, attempts: seq<Attempt>, h: seq<Version>, id: Identity, p: Patch, guarded: bool)
    requires IsBetween(before, attempts, |attempts|, h, id, p, guarded)
    ensures h == WriteHistory(before, id, p, attempts, guarded) && OnlyOthersWrote(before, h, attempts)
    ensures !WriteSucceeds(before, id, p, attempts, guarded)
  {
    assert attempts[|attempts|..] == [];
  }

  lemma {:induction false} AttemptAdvances(
    before: seq<Version>, attempts: seq<Attempt>, i: nat, h: seq<Version>, id: Identity, p: Patch, guarded: bool)
    requires i < |attempts| && IsBetween(before, attempts, i, h, id, p, guarded)
    ensures var after := AttemptHistory(h, id, p, attempts[i], guarded);
            && (if Retries(h, id, p, attempts[i], guarded) then IsBetween(before, attempts, i + 1, after, id, p, guarded)
                else && after == WriteHistory(before, id, p, attempts, guarded)
                     && (WriteSucceeds(before, id, p, attempts, guarded)
                         <==> Lands(h, id, p, attempts[i], guarded) && attempts[i].delivery.Answered?))
            && (if Lands(h, id, p, attempts[i], guarded) then LandedOnce(id, p, before, after, attempts)
                else OnlyOthersWrote(before, after, attempts))
    ensures Lands(h, id, p, attempts[i], guarded) ==> exists a | a in attempts :: Cleared(id, a, guarded)
  {
    AttemptExtends(before, attempts, i, h, id, p, guarded);
    assert attempts[i..][0] == attempts[i] && attempts[i..][1..] == attempts[i + 1..];
    assert attempts[i] in attempts;
  }

  lemma {:induction false} AttemptExtends(before: seq<Version>, attempts: seq<Attempt>, i: nat, h: seq<Version>, id: Identity, p: Patch, guarded: bool)
    requires i < |attempts| && h == before + Others(attempts[..i])
    ensures var after := AttemptHistory(h, id, p, attempts[i], guarded);
            if Lands(h, id, p, attempts[i], guarded) then LandedOnce(id, p, before, after, attempts)
            else after == before + Others(attempts[..i + 1]) && OnlyOthersWrote(before, after, attempts)
  {
    var a := attempts[i];
    var after, more := AttemptHistory(h, id, p, a, guarded), before + Others(attempts[..i + 1]);
    assert attempts[..i + 1][..i] == attempts[..i];
    assert more == h + a.earlier + a.interference;
    if Lands(h, id, p, a, guarded) {
      assert more == h + a.earlier;
      assert IsLandingAfter(id, p, more, after);
    }
  }
}
