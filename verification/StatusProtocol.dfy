/** Status writes as a distributed protocol: any number of in-flight writes, each
    split into its reads and its compare-and-set, interleaved with other writers,
    pod creation and pod deletion (internal/broker/status.go:178-328). */
module StatusProtocol {
  import opened Options
  import opened StatusRecords
  import opened StatusWriter

  /** How far one attempt of a write has come; `read` indexes the version it read. */
  datatype Phase = Start | HaveRun(read: nat) | HavePod(read: nat) | Checked(read: nat)

  datatype Call = Call(id: Identity, patch: Patch, phase: Phase)

  /** `pods` holds every pod ever created for the namespace, in creation order: a
      pod UID is never reissued and a deletion is never taken back. */
  datatype World = World(run: Uid, account: string, history: seq<Version>, pods: seq<Pod>, calls: seq<Call>)

  datatype Action =
    | CreatePod(pod: Pod)
    | DeletePod(k: nat)
    | OtherWriter(status: Status)
    | Begin(id: Identity, patch: Patch)
    | ReadRun(c: nat)
    | ReadPod(c: nat, pod: Pod)
    | ListPods(c: nat, listing: seq<Pod>)
    | UpdateStatus(c: nat)
    | Abandon(c: nat)

  /** Other writers leave the harness-owned records and operations alone. */
  predicate KeepsHarnessFields(s: Status, t: Status) {
    t.terminal == s.terminal && t.noChange == s.noChange && t.surface == s.surface && t.operations == s.operations
  }

  /** A live listing is complete: it holds every pod that is not being deleted. */
  predicate IsListing(pods: seq<Pod>, listing: seq<Pod>) {
    && (forall pod | pod in listing :: pod in pods)
    && (forall pod | pod in pods && !pod.terminating :: pod in listing)
  }

  predicate Enabled(w: World, a: Action) {
    && |w.history| > 0
    && match a
       case CreatePod(pod) => !pod.terminating && forall k | 0 <= k < |w.pods| :: w.pods[k].uid != pod.uid
       case DeletePod(k) => k < |w.pods|
       case OtherWriter(status) => KeepsHarnessFields(w.history[|w.history| - 1].status, status)
       case Begin(id, patch) => Admissible(id, patch) && id.runUid == w.run && id.serviceAccount == w.account
       case ReadRun(c) => c < |w.calls| && w.calls[c].phase.Start?
       case ReadPod(c, pod) =>
         c < |w.calls| && w.calls[c].phase.HaveRun? && pod in w.pods
         && pod.name == w.calls[c].id.controlPod && IsAuthenticatedPod(w.calls[c].id, pod)
       case ListPods(c, listing) =>
         c < |w.calls| && w.calls[c].phase.HavePod? && IsListing(w.pods, listing)
         && IsSoleIncarnation(w.calls[c].id, listing)
       case UpdateStatus(c) =>
         c < |w.calls| && w.calls[c].phase.Checked? && w.calls[c].phase.read == |w.history| - 1
         && AckFences(w.calls[c].id, w.calls[c].patch, w.history[w.calls[c].phase.read].status)
         && Accepts(w.history[w.calls[c].phase.read].status, w.calls[c].patch)
       case Abandon(c) => c < |w.calls|
  }

  function SetPhase(w: World, c: nat, phase: Phase): World
    requires c < |w.calls|
  {
    w.(calls := w.calls[c := w.calls[c].(phase := phase)])
  }

  /** One atomic step; an action that is not enabled changes nothing. A call that
      lost its race, was refused or finished goes back to the start, from where
      its caller may try the same patch again. */
  function Step(w: World, a: Action): World {
    if !Enabled(w, a) then w
    else match a
      case CreatePod(pod) => w.(pods := w.pods + [pod])
      case DeletePod(k) => w.(pods := w.pods[k := w.pods[k].(terminating := true)])
      case OtherWriter(status) => w.(history := w.history + [Version(status, None)])
      case Begin(id, patch) => w.(calls := w.calls + [Call(id, patch, Start)])
      case ReadRun(c) => SetPhase(w, c, HaveRun(|w.history| - 1))
      case ReadPod(c, pod) => SetPhase(w, c, HavePod(w.calls[c].phase.read))
      case ListPods(c, listing) => SetPhase(w, c, Checked(w.calls[c].phase.read))
      case UpdateStatus(c) =>
        var call := w.calls[c];
        var next := Version(Updated(w.history[call.phase.read].status, call.patch), Some(Author(call.id, call.patch)));
        SetPhase(w.(history := w.history + [next]), c, Start)
      case Abandon(c) => SetPhase(w, c, Start)
  }

  function Execute(w: World, actions: seq<Action>): World
    decreases |actions|
  {
    if actions == [] then w else Execute(Step(w, actions[0]), actions[1..])
  }

  /** A run before any harness write. */
  predicate IsInitial(w: World) {
    && |w.history| == 1 && w.history[0].author.None?
    && w.history[0].status.terminal.None? && w.history[0].status.noChange.None?
    && w.history[0].status.surface.None? && w.history[0].status.operations == map[]
    && w.pods == [] && w.calls == []
  }

  // ---- what a history promises ----

  function AuthorUid(v: Version): Option<Uid> {
    if v.author.Some? then Some(v.author.value.id.controlPodUid) else None
  }

  /** How one version may follow another. */
  ghost predicate Follows(prev: Version, next: Version) {
    match next.author
    case None => KeepsHarnessFields(prev.status, next.status)
    case Some(author) => Admissible(author.id, author.patch) && IsLanding(author.id, author.patch, prev, next)
  }

  ghost predicate WellLinked(h: seq<Version>) {
    && |h| > 0
    && (forall slot :: SlotUid(slot, h[0].status).None?)
    && h[0].author.None? && h[0].status.operations == map[]
    && forall k | 0 < k < |h| :: Follows(h[k - 1], h[k])
  }

  /** No incarnation lands a write again once another one has landed after it. */
  ghost predicate NoReturn(h: seq<Version>) {
    forall a, b, c | 0 <= a < b < c < |h| && h[a].author.Some? && h[b].author.Some? && AuthorUid(h[c]) == AuthorUid(h[a]) ::
      AuthorUid(h[b]) == AuthorUid(h[a])
  }

  // ---- the inductive invariant ----

  /** Pod k carries the UID. */
  predicate Born(w: World, k: nat, uid: Uid) {
    k < |w.pods| && w.pods[k].uid == uid
  }

  /** Pod k was created as a control pod of this run. */
  predicate IsRunControl(w: World, k: nat) {
    k < |w.pods| && w.pods[k].serviceAccount == w.account && w.pods[k].ownerRun == Some(w.run)
  }

  ghost predicate PodsDistinct(w: World) {
    forall i, k | 0 <= i < k < |w.pods| :: w.pods[i].uid != w.pods[k].uid
  }

  ghost predicate CallsAuthenticated(w: World) {
    forall c | 0 <= c < |w.calls| ::
      && Admissible(w.calls[c].id, w.calls[c].patch)
      && w.calls[c].id.runUid == w.run && w.calls[c].id.serviceAccount == w.account
      && (!w.calls[c].phase.Start? ==> w.calls[c].phase.read < |w.history|)
  }

  /** Every control pod older than this incarnation is gone. */
  ghost predicate EldersGone(w: World, uid: Uid) {
    exists k: nat :: Born(w, k, uid) && forall i: nat | i < k && IsRunControl(w, i) :: w.pods[i].terminating
  }

  /** No landed write up to version n comes from an incarnation younger than this one. */
  ghost predicate NoneYounger(w: World, n: nat, uid: Uid) {
    forall a: nat, k: nat, i: nat
      | a <= n && a < |w.history| && w.history[a].author.Some? && Born(w, k, AuthorUid(w.history[a]).value) && Born(w, i, uid) ::
      k <= i
  }

  /** Landed writes leave only younger incarnations alive ... */
  ghost predicate LandedEldersGone(w: World) {
    forall a | 0 <= a < |w.history| && w.history[a].author.Some? :: EldersGone(w, AuthorUid(w.history[a]).value)
  }

  /** ... and come from ever younger incarnations. */
  ghost predicate Fenced(w: World) {
    forall b | 0 <= b < |w.history| && w.history[b].author.Some? :: NoneYounger(w, b, AuthorUid(w.history[b]).value)
  }

  /** A checked call has seen its incarnation alone, after reading its version. */
  ghost predicate CheckedCallsCurrent(w: World) {
    forall c | 0 <= c < |w.calls| && w.calls[c].phase.Checked? ::
      EldersGone(w, w.calls[c].id.controlPodUid) && NoneYounger(w, w.calls[c].phase.read, w.calls[c].id.controlPodUid)
  }

  ghost predicate Inv(w: World) {
    && WellLinked(w.history) && PodsDistinct(w) && CallsAuthenticated(w)
    && LandedEldersGone(w) && Fenced(w) && CheckedCallsCurrent(w)
  }

  // ---- preservation, action by action ----

  lemma {:induction false} InitialInv(w: World)
    requires IsInitial(w)
    ensures Inv(w)
  {
    assert forall slot :: SlotUid(slot, w.history[0].status).None?;
  }

  /** Facts about pods survive creation and deletion of pods. */
  lemma {:induction false} PodChangeKeeps(w: World, v: World, uid: Uid, n: nat)
    requires v.history == w.history && v.run == w.run && v.account == w.account && |w.pods| <= |v.pods|
    requires forall k | 0 <= k < |w.pods| ::
               v.pods[k] == w.pods[k] || v.pods[k] == w.pods[k].(terminating := true)
    requires PodsDistinct(v)
    requires EldersGone(w, uid) && NoneYounger(w, n, uid) && LandedEldersGone(w)
    ensures EldersGone(v, uid) && NoneYounger(v, n, uid)
  {
    var k: nat :| Born(w, k, uid) && forall i: nat | i < k && IsRunControl(w, i) :: w.pods[i].terminating;
    assert Born(v, k, uid);
    assert forall i: nat | i < k && IsRunControl(v, i) :: IsRunControl(w, i) && v.pods[i].terminating;
    forall a: nat, k': nat, i: nat
      | a <= n && a < |v.history| && v.history[a].author.Some? && Born(v, k', AuthorUid(v.history[a]).value) && Born(v, i, uid)
      ensures k' <= i
    {
      assert i == k;
      var j: nat :| Born(w, j, AuthorUid(w.history[a]).value);
      assert Born(v, j, AuthorUid(w.history[a]).value);
      assert j == k';
      assert Born(w, i, uid);
    }
  }

  lemma {:induction false} PodStepKeepsInv(w: World, a: Action)
    requires Inv(w) && Enabled(w, a) && (a.CreatePod? || a.DeletePod?)
    ensures Inv(Step(w, a))
  {
    var v := Step(w, a);
    forall b | 0 <= b < |v.history| && v.history[b].author.Some?
      ensures EldersGone(v, AuthorUid(v.history[b]).value) && NoneYounger(v, b, AuthorUid(v.history[b]).value)
    {
      PodChangeKeeps(w, v, AuthorUid(v.history[b]).value, b);
    }
    forall c | 0 <= c < |v.calls| && v.calls[c].phase.Checked?
      ensures EldersGone(v, v.calls[c].id.controlPodUid)
      ensures NoneYounger(v, v.calls[c].phase.read, v.calls[c].id.controlPodUid)
    {
      PodChangeKeeps(w, v, v.calls[c].id.controlPodUid, v.calls[c].phase.read);
    }
  }

  /** The heart of the fence: a complete listing taken after reading version n
      shows the caller's incarnation alone, so everything older is gone and
      nothing up to version n was written by anything younger. */
  lemma {:induction false} ListingFences(w: World, id: Identity, listing: seq<Pod>, n: nat)
    requires Inv(w) && id.runUid == w.run && id.serviceAccount == w.account
    requires IsListing(w.pods, listing) && IsSoleIncarnation(id, listing)
    ensures EldersGone(w, id.controlPodUid) && NoneYounger(w, n, id.controlPodUid)
  {
    SoleIncarnation(id, listing);
    var pod :| pod in listing && IsControlPod(id, pod) && pod.uid == id.controlPodUid;
    var k :| 0 <= k < |w.pods| && w.pods[k] == pod;
    assert Born(w, k, id.controlPodUid);
    forall i: nat | i < k && IsRunControl(w, i)
      ensures w.pods[i].terminating
    {
      assert !w.pods[i].terminating ==> w.pods[i] in listing && IsControlPod(id, w.pods[i]);
    }
    forall a: nat, k': nat, i: nat
      | a <= n && a < |w.history| && w.history[a].author.Some?
        && Born(w, k', AuthorUid(w.history[a]).value) && Born(w, i, id.controlPodUid)
      ensures k' <= i
    {
      assert i == k;
      var j: nat :| Born(w, j, AuthorUid(w.history[a]).value)
                    && forall i': nat | i' < j && IsRunControl(w, i') :: w.pods[i'].terminating;
      assert j == k';
      assert IsRunControl(w, k);
    }
  }

  lemma {:induction false} CallStepKeepsHistory(w: World, a: Action)
    requires Inv(w) && Enabled(w, a)
    requires a.Begin? || a.ReadRun? || a.ReadPod? || a.ListPods? || a.Abandon?
    ensures var v := Step(w, a);
            && v.history == w.history && v.pods == w.pods && v.run == w.run && v.account == w.account
            && WellLinked(v.history) && PodsDistinct(v) && LandedEldersGone(v) && Fenced(v)
  {
    SamePodsSameFacts(w, Step(w, a));
  }

  lemma {:induction false} CallStepKeepsCalls(w: World, a: Action)
    requires Inv(w) && Enabled(w, a)
    requires a.Begin? || a.ReadRun? || a.ReadPod? || a.ListPods? || a.Abandon?
    ensures CallsAuthenticated(Step(w, a)) && CheckedCallsCurrent(Step(w, a))
  {
    CallStepKeepsAuthentication(w, a);
    if a.ListPods? {
      ListingChecks(w, a);
    } else {
      OtherStepKeepsChecked(w, a);
    }
  }

  lemma {:induction false} CallStepKeepsAuthentication(w: World, a: Action)
    requires Inv(w) && Enabled(w, a)
    requires a.Begin? || a.ReadRun? || a.ReadPod? || a.ListPods? || a.Abandon?
    ensures CallsAuthenticated(Step(w, a))
  {
  }

  lemma {:induction false} ListingChecks(w: World, a: Action)
    requires Inv(w) && Enabled(w, a) && a.ListPods?
    ensures CheckedCallsCurrent(Step(w, a))
  {
    SamePodsSameFacts(w, Step(w, a));
    ListingFences(w, w.calls[a.c].id, a.listing, w.calls[a.c].phase.read);
  }

  lemma {:induction false} OtherStepKeepsChecked(w: World, a: Action)
    requires Inv(w) && Enabled(w, a) && (a.Begin? || a.ReadRun? || a.ReadPod? || a.Abandon?)
    ensures CheckedCallsCurrent(Step(w, a))
  {
    SamePodsSameFacts(w, Step(w, a));
  }

  lemma {:induction false} SamePodsSameFacts(w: World, v: World)
    requires v.pods == w.pods && v.run == w.run && v.account == w.account && w.history <= v.history
    ensures forall uid | EldersGone(w, uid) :: EldersGone(v, uid)
    ensures forall uid, n: nat | n < |w.history| && NoneYounger(w, n, uid) :: NoneYounger(v, n, uid)
  {
    forall uid | EldersGone(w, uid)
      ensures EldersGone(v, uid)
    {
      var k: nat :| Born(w, k, uid) && forall i: nat | i < k && IsRunControl(w, i) :: w.pods[i].terminating;
      assert Born(v, k, uid);
      assert forall i: nat :: IsRunControl(v, i) == IsRunControl(w, i);
    }
    assert forall k: nat, uid :: Born(v, k, uid) == Born(w, k, uid);
  }

  lemma {:induction false} WriteStepKeepsLinks(w: World, a: Action)
    requires Inv(w) && Enabled(w, a) && (a.OtherWriter? || a.UpdateStatus?)
    ensures w.history <= Step(w, a).history && WellLinked(Step(w, a).history)
  {
    var h := Step(w, a).history;
    forall k | 0 < k < |h|
      ensures Follows(h[k - 1], h[k])
    {
      if k < |w.history| {
        assert h[k - 1] == w.history[k - 1] && h[k] == w.history[k];
      }
    }
  }

  lemma {:induction false} WriteStepKeepsCalls(w: World, a: Action)
    requires Inv(w) && Enabled(w, a) && (a.OtherWriter? || a.UpdateStatus?)
    ensures PodsDistinct(Step(w, a)) && CallsAuthenticated(Step(w, a)) && CheckedCallsCurrent(Step(w, a))
  {
    SamePodsSameFacts(w, Step(w, a));
  }

  lemma {:induction false} WriteStepKeepsFence(w: World, a: Action)
    requires Inv(w) && Enabled(w, a) && (a.OtherWriter? || a.UpdateStatus?)
    ensures LandedEldersGone(Step(w, a)) && Fenced(Step(w, a))
  {
    var v := Step(w, a);
    SamePodsSameFacts(w, v);
    if a.UpdateStatus? {
      LandingIsYoungest(w, v, a.c);
    }
    forall b | 0 <= b < |v.history| && v.history[b].author.Some?
      ensures EldersGone(v, AuthorUid(v.history[b]).value) && NoneYounger(v, b, AuthorUid(v.history[b]).value)
    {
      if b < |w.history| {
        assert v.history[b] == w.history[b];
      }
    }
  }

  /** The compare-and-set holds the check to the version that was read, so the
      landing is at least as young as everything before it. */
  lemma {:induction false} LandingIsYoungest(w: World, v: World, c: nat)
    requires Inv(w) && Enabled(w, UpdateStatus(c)) && v == Step(w, UpdateStatus(c))
    ensures NoneYounger(v, |w.history|, w.calls[c].id.controlPodUid)
  {
    var uid := w.calls[c].id.controlPodUid;
    var n := |w.history|;
    assert NoneYounger(w, n - 1, uid);
    forall a: nat, k: nat, i: nat
      | a <= n && a < |v.history| && v.history[a].author.Some? && Born(v, k, AuthorUid(v.history[a]).value) && Born(v, i, uid)
      ensures k <= i
    {
      assert Born(w, i, uid);
      if a < n {
        assert v.history[a] == w.history[a];
        assert Born(w, k, AuthorUid(w.history[a]).value);
      } else {
        assert AuthorUid(v.history[a]) == Some(uid);
      }
    }
  }

  lemma {:induction false} StepKeepsInv(w: World, a: Action)
    requires Inv(w)
    ensures Inv(Step(w, a))
  {
    if Enabled(w, a) {
      match a {
        case CreatePod(_) => PodStepKeepsInv(w, a);
        case DeletePod(_) => PodStepKeepsInv(w, a);
        case OtherWriter(_) | UpdateStatus(_) =>
          WriteStepKeepsLinks(w, a);
          WriteStepKeepsCalls(w, a);
          WriteStepKeepsFence(w, a);
        case _ =>
          CallStepKeepsHistory(w, a);
          CallStepKeepsCalls(w, a);
      }
    }
  }

  lemma {:induction false} ExecutionKeepsInv(w: World, actions: seq<Action>)
    requires Inv(w)
    ensures Inv(Execute(w, actions))
    decreases |actions|
  {
    if actions != [] {
      StepKeepsInv(w, actions[0]);
      ExecutionKeepsInv(Step(w, actions[0]), actions[1..]);
    }
  }

  // ---- what the invariant means for a whole history ----

  lemma {:induction false} FencedMeansNoReturn(w: World)
    requires Inv(w)
    ensures NoReturn(w.history)
  {
    forall a, b, c | 0 <= a < b < c < |w.history| && w.history[a].author.Some? && w.history[b].author.Some?
                     && AuthorUid(w.history[c]) == AuthorUid(w.history[a])
      ensures AuthorUid(w.history[b]) == AuthorUid(w.history[a])
    {
      var old' := AuthorUid(w.history[a]).value;
      var other := AuthorUid(w.history[b]).value;
      assert EldersGone(w, old') && EldersGone(w, other);
      var i: nat :| Born(w, i, old');
      var k: nat :| Born(w, k, other);
      assert NoneYounger(w, b, other) && NoneYounger(w, c, old');
      assert i <= k && k <= i;
    }
  }

  /** What one version may do to a slot: keep its evidence, or hold a record of
      the incarnation that wrote the version. */
  ghost predicate SlotStep(slot: Slot, prev: Version, next: Version) {
    || (SlotUid(slot, next.status) == SlotUid(slot, prev.status)
        && (SlotUid(slot, prev.status).Some? ==> SlotSame(slot, prev.status, next.status)))
    || (SlotUid(slot, next.status) != SlotUid(slot, prev.status)
        && next.author.Some? && SlotUid(slot, next.status) == AuthorUid(next))
  }

  ghost predicate SlotLinked(h: seq<Version>, slot: Slot) {
    && |h| > 0 && SlotUid(slot, h[0].status).None?
    && forall k | 0 < k < |h| :: SlotStep(slot, h[k - 1], h[k])
  }

  lemma {:induction false} FollowsStepsSlot(slot: Slot, prev: Version, next: Version)
    requires Follows(prev, next)
    ensures SlotStep(slot, prev, next)
  {
  }

  lemma {:induction false} LinkedSlots(h: seq<Version>, slot: Slot)
    requires WellLinked(h)
    ensures SlotLinked(h, slot)
  {
    forall k | 0 < k < |h|
      ensures SlotStep(slot, h[k - 1], h[k])
    {
      FollowsStepsSlot(slot, h[k - 1], h[k]);
    }
  }

  lemma {:induction false} SlotSameTransitive(slot: Slot, s: Status, t: Status, u: Status)
    requires SlotSame(slot, s, t)
    ensures SlotSame(slot, t, s)
    ensures SlotSame(slot, t, u) ==> SlotSame(slot, s, u)
  {
  }

  /** A slot's record that was not there at version i was put there, in between,
      by the incarnation it names. */
  lemma {:induction false} RecordHasAuthor(h: seq<Version>, slot: Slot, i: nat, j: nat, uid: Uid) returns (k: nat)
    requires SlotLinked(h, slot) && i <= j < |h|
    requires SlotUid(slot, h[j].status) == Some(uid) && SlotUid(slot, h[i].status) != Some(uid)
    ensures i < k <= j && AuthorUid(h[k]) == Some(uid)
    decreases j
  {
    assert SlotStep(slot, h[j - 1], h[j]);
    if SlotUid(slot, h[j - 1].status) == Some(uid) {
      k := RecordHasAuthor(h, slot, i, j - 1, uid);
    } else {
      k := j;
    }
  }

  /** Records are replaced, never removed. */
  lemma {:induction false} LinkedRecordsPersist(h: seq<Version>, slot: Slot, i: nat, j: nat)
    requires SlotLinked(h, slot) && i <= j < |h| && SlotUid(slot, h[i].status).Some?
    ensures SlotUid(slot, h[j].status).Some?
    decreases j
  {
    if i < j {
      LinkedRecordsPersist(h, slot, i, j - 1);
      assert SlotStep(slot, h[j - 1], h[j]);
    }
  }

  /** Set once: over the whole history an incarnation has at most one record per
      slot, even where another incarnation's record stood in between. */
  lemma {:induction false} SetOnce(h: seq<Version>, slot: Slot, i: nat, j: nat, uid: Uid)
    requires SlotLinked(h, slot) && NoReturn(h) && i <= j < |h|
    requires SlotUid(slot, h[i].status) == Some(uid) && SlotUid(slot, h[j].status) == Some(uid)
    ensures SlotSame(slot, h[i].status, h[j].status)
    decreases j
  {
    if i < j {
      assert SlotStep(slot, h[j - 1], h[j]);
      if SlotUid(slot, h[j - 1].status) == Some(uid) {
        SetOnce(h, slot, i, j - 1, uid);
        SlotSameTransitive(slot, h[i].status, h[j - 1].status, h[j].status);
      } else {
        LinkedRecordsPersist(h, slot, i, j - 1);
        var other := SlotUid(slot, h[j - 1].status).value;
        var mine := RecordHasAuthor(h, slot, 0, i, uid);
        var theirs := RecordHasAuthor(h, slot, i, j - 1, other);
        assert false;
      }
    }
  }

  lemma {:induction false} FollowsStaysBounded(prev: Version, next: Version)
    requires Follows(prev, next) && |prev.status.operations| <= MAX_ACTIVE_OPERATIONS
    ensures |next.status.operations| <= MAX_ACTIVE_OPERATIONS
  {
    if next.author.Some? {
      AcceptedPatchIsExact(prev.status, next.author.value.patch);
    }
  }

  lemma {:induction false} LinkedOperationsAreBounded(h: seq<Version>)
    requires WellLinked(h)
    ensures forall k | 0 <= k < |h| :: |h[k].status.operations| <= MAX_ACTIVE_OPERATIONS
  {
    for n := 1 to |h|
      invariant forall k | 0 <= k < n :: |h[k].status.operations| <= MAX_ACTIVE_OPERATIONS
    {
      FollowsStaysBounded(h[n - 1], h[n]);
    }
  }

  // ---- theorems over every interleaving ----

  /** Incarnation fencing: in every execution, once an incarnation has landed a
      write after another one, the older one never lands again. */
  lemma {:induction false} IncarnationFencing(w: World, actions: seq<Action>)
    requires IsInitial(w)
    ensures var h := Execute(w, actions).history;
            forall a, b, c | 0 <= a < b < c < |h| && h[a].author.Some? && h[b].author.Some?
                             && AuthorUid(h[a]) != AuthorUid(h[b]) ::
              AuthorUid(h[c]) != AuthorUid(h[a])
  {
    InitialInv(w);
    ExecutionKeepsInv(w, actions);
    FencedMeansNoReturn(Execute(w, actions));
  }

  /** Stronger, in terms of pod age: the author of a later write is never an
      incarnation created before the author of an earlier one. */
  lemma {:induction false} AuthorsOnlyGetYounger(w: World, actions: seq<Action>, a: nat, b: nat, i: nat, k: nat)
    requires IsInitial(w)
    requires var v := Execute(w, actions);
             a <= b < |v.history| && v.history[a].author.Some? && v.history[b].author.Some?
             && Born(v, i, AuthorUid(v.history[a]).value) && Born(v, k, AuthorUid(v.history[b]).value)
    ensures i <= k
  {
    InitialInv(w);
    ExecutionKeepsInv(w, actions);
  }

  /** Set-once over the whole history, for every incarnation and every record. */
  lemma {:induction false} RecordsAreSetOnce(w: World, actions: seq<Action>, slot: Slot, uid: Uid, i: nat, j: nat)
    requires IsInitial(w)
    requires var h := Execute(w, actions).history;
             i < |h| && j < |h| && SlotUid(slot, h[i].status) == Some(uid) && SlotUid(slot, h[j].status) == Some(uid)
    ensures var h := Execute(w, actions).history;
            SlotSame(slot, h[i].status, h[j].status)
  {
    var v := Execute(w, actions);
    InitialInv(w);
    ExecutionKeepsInv(w, actions);
    FencedMeansNoReturn(v);
    LinkedSlots(v.history, slot);
    if i <= j {
      SetOnce(v.history, slot, i, j, uid);
    } else {
      SetOnce(v.history, slot, j, i, uid);
      SlotSameTransitive(slot, v.history[j].status, v.history[i].status, v.history[i].status);
    }
  }

  /** No lost updates: every landed write changes its predecessor in all the
      fields its patch names and in no other, keeps the operation set bounded,
      would be accepted again without effect, and acknowledges only a control
      request that its predecessor aimed at the writing incarnation. */
  lemma {:induction false} LandedWritesAreExact(w: World, actions: seq<Action>, k: nat)
    requires IsInitial(w)
    requires var h := Execute(w, actions).history; 0 < k < |h| && h[k].author.Some?
    ensures var h := Execute(w, actions).history;
            var p := h[k].author.value.patch;
            && ChangesOnlyNamed(p, h[k - 1].status, h[k].status)
            && CarriesNamed(p, h[k].status)
            && |h[k].status.operations| <= MAX_ACTIVE_OPERATIONS
            && Accepts(h[k].status, p) && Updated(h[k].status, p) == h[k].status
            && (p.ack.Some? ==>
                  var request := h[k - 1].status.request;
                  request.Some? && request.value.id == p.ack.value.id && request.value.targetPodUid == h[k].author.value.id.controlPodUid)
  {
    var h := Execute(w, actions).history;
    InitialInv(w);
    ExecutionKeepsInv(w, actions);
    assert Follows(h[k - 1], h[k]);
    LinkedOperationsAreBounded(h);
    AcceptedPatchIsExact(h[k - 1].status, h[k].author.value.patch);
    RetryIsIdempotent(h[k - 1].status, h[k].author.value.patch);
  }

  /** Every landed write comes from a caller of this run and its account whose patch
      was let through, so every record it persists is well formed and its own. */
  lemma {:induction false} LandedWritesAreAuthorized(w: World, actions: seq<Action>, k: nat)
    requires IsInitial(w)
    requires var h := Execute(w, actions).history; k < |h| && h[k].author.Some?
    ensures var a := Execute(w, actions).history[k].author.value; MayWrite(a.id, a.patch, true)
    ensures var a, s := Execute(w, actions).history[k].author.value, Execute(w, actions).history[k].status;
            && (a.patch.terminal.Some? ==> s.terminal.Some? && s.terminal.value.uid == a.id.controlPodUid)
            && (a.patch.noChange.Some? ==> s.noChange.Some? && s.noChange.value.uid == a.id.controlPodUid)
            && (a.patch.surface.Some? ==> s.surface.Some? && s.surface.value.uid == a.id.controlPodUid)
            && (a.patch.heartbeat.Some? ==> s.heartbeat.Some? && s.heartbeat.value.uid == a.id.controlPodUid)
            && (a.patch.add.Some? && a.patch.add.value.id != a.patch.clear ==>
                  a.patch.add.value.id in s.operations && s.operations[a.patch.add.value.id].coordinatorUid == a.id.controlPodUid)
  {
    var h := Execute(w, actions).history;
    InitialInv(w);
    ExecutionKeepsInv(w, actions);
    assert Follows(h[k - 1], h[k]);
    MayWriteExactly(h[k].author.value.id, h[k].author.value.patch, true);
    LinkedOperationsAreBounded(h);
    AcceptedPatchIsExact(h[k - 1].status, h[k].author.value.patch);
  }

  /** No version of any execution holds more operations than the bound. */
  lemma {:induction false} OperationsStayBounded(w: World, actions: seq<Action>)
    requires IsInitial(w)
    ensures var h := Execute(w, actions).history; forall k | 0 <= k < |h| :: |h[k].status.operations| <= MAX_ACTIVE_OPERATIONS
  {
    InitialInv(w);
    ExecutionKeepsInv(w, actions);
    LinkedOperationsAreBounded(Execute(w, actions).history);
  }

  /** In every execution a record is replaced at most by another one, never removed. */
  lemma {:induction false} RecordsPersist(w: World, actions: seq<Action>, slot: Slot, i: nat, j: nat)
    requires IsInitial(w)
    requires var h := Execute(w, actions).history; i <= j < |h| && SlotUid(slot, h[i].status).Some?
    ensures SlotUid(slot, Execute(w, actions).history[j].status).Some?
  {
    var h := Execute(w, actions).history;
    InitialInv(w);
    ExecutionKeepsInv(w, actions);
    LinkedSlots(h, slot);
    LinkedRecordsPersist(h, slot, i, j);
  }

  // ---- the writer's loop is such an execution ----

  lemma {:induction false} ExecuteInTwo(w: World, a: seq<Action>, b: seq<Action>)
    ensures Execute(w, a + b) == Execute(Execute(w, a), b)
    decreases |a|
  {
    if a == [] {
      assert a + b == b;
    } else {
      assert (a + b)[1..] == a[1..] + b;
      ExecuteInTwo(Step(w, a[0]), a[1..], b);
    }
  }

  /** The call that an action belongs to; pods and other writers belong to none. */
  function CallOf(a: Action): Option<nat> {
    match a
    case ReadRun(c) => Some(c)
    case ReadPod(c, _) => Some(c)
    case ListPods(c, _) => Some(c)
    case UpdateStatus(c) => Some(c)
    case Abandon(c) => Some(c)
    case _ => None
  }

  predicate AreOthers(c: nat, actions: seq<Action>) {
    forall i | 0 <= i < |actions| :: CallOf(actions[i]) != Some(c)
  }

  /** Whatever pods, other writers and other calls do, a call stays where it is. */
  lemma {:induction false} OthersLeaveCall(w: World, c: nat, actions: seq<Action>)
    requires c < |w.calls| && |w.history| > 0 && AreOthers(c, actions)
    ensures var v := Execute(w, actions); c < |v.calls| && v.calls[c] == w.calls[c] && |v.history| > 0
    decreases |actions|
  {
    if actions != [] {
      assert CallOf(actions[0]) != Some(c);
      OthersLeaveCall(Step(w, actions[0]), c, actions[1..]);
    }
  }

  /** What happens around the steps of one attempt: before it reads the run, and
      after each of its three reads. */
  datatype Surroundings = Surroundings(before: seq<Action>, afterRun: seq<Action>, afterPod: seq<Action>, afterList: seq<Action>)

  predicate AreAllOthers(c: nat, e: Surroundings) {
    AreOthers(c, e.before) && AreOthers(c, e.afterRun) && AreOthers(c, e.afterPod) && AreOthers(c, e.afterList)
  }

  function PodSteps(c: nat, a: Attempt): seq<Action> {
    if a.pod.PodFound? then [ReadPod(c, a.pod.pod)] else []
  }

  function ListSteps(c: nat, a: Attempt): seq<Action> {
    if a.pods.Some? then [ListPods(c, a.pods.value)] else []
  }

  function LastStep(c: nat, lands: bool): seq<Action> {
    [if lands then UpdateStatus(c) else Abandon(c)]
  }

  /** The world at the read of the run, at the read of the pod, at the listing and at the update. */
  function AtRun(w: World, e: Surroundings): World {
    Execute(w, e.before)
  }

  function AtPod(w: World, c: nat, e: Surroundings): World {
    Execute(Execute(AtRun(w, e), [ReadRun(c)]), e.afterRun)
  }

  function AtList(w: World, c: nat, a: Attempt, e: Surroundings): World {
    Execute(Execute(AtPod(w, c, e), PodSteps(c, a)), e.afterPod)
  }

  function AtUpdate(w: World, c: nat, a: Attempt, e: Surroundings): World {
    Execute(Execute(AtList(w, c, a, e), ListSteps(c, a)), e.afterList)
  }

  function AfterAttempt(w: World, c: nat, a: Attempt, e: Surroundings, lands: bool): World {
    Execute(AtUpdate(w, c, a, e), LastStep(c, lands))
  }

  function AttemptSteps(c: nat, a: Attempt, e: Surroundings, lands: bool): seq<Action> {
    e.before + [ReadRun(c)] + e.afterRun + PodSteps(c, a) + e.afterPod + ListSteps(c, a) + e.afterList + LastStep(c, lands)
  }

  lemma {:induction false} StepsLeadThere(w: World, c: nat, a: Attempt, e: Surroundings, lands: bool)
    ensures Execute(w, AttemptSteps(c, a, e, lands)) == AfterAttempt(w, c, a, e, lands)
  {
    var s1 := e.before + [ReadRun(c)];
    var s2 := s1 + e.afterRun;
    var s3 := s2 + PodSteps(c, a);
    var s4 := s3 + e.afterPod;
    var s5 := s4 + ListSteps(c, a);
    var s6 := s5 + e.afterList;
    ExecuteInTwo(w, e.before, [ReadRun(c)]);
    ExecuteInTwo(w, s1, e.afterRun);
    ExecuteInTwo(w, s2, PodSteps(c, a));
    ExecuteInTwo(w, s3, e.afterPod);
    ExecuteInTwo(w, s4, ListSteps(c, a));
    ExecuteInTwo(w, s5, e.afterList);
    ExecuteInTwo(w, s6, LastStep(c, lands));
  }

  /** Each read of the attempt shows the world as it is at that moment, and what
      the attempt meets is what others land before and after its read of the run. */
  predicate IsTruthful(w: World, c: nat, a: Attempt, e: Surroundings)
    requires c < |w.calls|
  {
    && AreAllOthers(c, e)
    && AtRun(w, e).history == w.history + a.earlier
    && (a.pod.PodFound? ==> a.pod.pod in AtPod(w, c, e).pods && a.pod.pod.name == w.calls[c].id.controlPod)
    && (a.pods.Some? ==> IsListing(AtList(w, c, a, e).pods, a.pods.value))
    && AtUpdate(w, c, a, e).history == w.history + a.earlier + a.interference
  }

  predicate IsIdle(w: World, c: nat) {
    c < |w.calls| && w.calls[c].phase.Start?
  }

  predicate IsSameCall(w: World, v: World, c: nat) {
    c < |w.calls| && c < |v.calls| && v.calls[c].id == w.calls[c].id && v.calls[c].patch == w.calls[c].patch && |v.history| > 0
  }

  lemma {:induction false} OneStep(w: World, a: Action)
    ensures Execute(w, [a]) == Step(w, a)
  {
    assert [a][1..] == [];
  }

  lemma {:induction false} RunIsRead(w: World, c: nat, e: Surroundings)
    requires IsIdle(w, c) && |w.history| > 0 && AreAllOthers(c, e)
    ensures |AtRun(w, e).history| > 0
    ensures var v := AtPod(w, c, e);
            IsSameCall(w, v, c) && v.calls[c].phase == HaveRun(|AtRun(w, e).history| - 1)
  {
    OthersLeaveCall(w, c, e.before);
    var read := AtRun(w, e);
    OneStep(read, ReadRun(c));
    OthersLeaveCall(Step(read, ReadRun(c)), c, e.afterRun);
  }

  lemma {:induction false} PodIsRead(w: World, c: nat, a: Attempt, e: Surroundings)
    requires IsIdle(w, c) && |w.history| > 0 && IsTruthful(w, c, a, e)
    ensures var v := AtList(w, c, a, e);
            && IsSameCall(w, v, c)
            && (IsCurrent(w.calls[c].id, a) ==> v.calls[c].phase == HavePod(|AtRun(w, e).history| - 1))
  {
    RunIsRead(w, c, e);
    var at := AtPod(w, c, e);
    if a.pod.PodFound? {
      OneStep(at, ReadPod(c, a.pod.pod));
    }
    OthersLeaveCall(Execute(at, PodSteps(c, a)), c, e.afterPod);
  }

  lemma {:induction false} PodsAreListed(w: World, c: nat, a: Attempt, e: Surroundings)
    requires IsIdle(w, c) && |w.history| > 0 && IsTruthful(w, c, a, e)
    ensures var v := AtUpdate(w, c, a, e);
            && IsSameCall(w, v, c)
            && (IsCurrent(w.calls[c].id, a) ==> v.calls[c].phase == Checked(|AtRun(w, e).history| - 1))
  {
    PodIsRead(w, c, a, e);
    var at := AtList(w, c, a, e);
    if a.pods.Some? {
      OneStep(at, ListPods(c, a.pods.value));
    }
    OthersLeaveCall(Execute(at, ListSteps(c, a)), c, e.afterList);
  }

  /** The update of a checked call lands on the version that it read. */
  lemma {:induction false} UpdateLands(w: World, c: nat)
    requires c < |w.calls| && |w.history| > 0 && w.calls[c].phase == Checked(|w.history| - 1)
    requires AckFences(w.calls[c].id, w.calls[c].patch, w.history[|w.history| - 1].status)
    requires Accepts(w.history[|w.history| - 1].status, w.calls[c].patch)
    ensures var v := Execute(w, LastStep(c, true));
            && IsIdle(v, c) && IsSameCall(w, v, c)
            && v.history == w.history + [Successor(w.history, w.calls[c].id, w.calls[c].patch)]
  {
    OneStep(w, UpdateStatus(c));
  }

  lemma {:induction false} CallGivesUp(w: World, c: nat)
    requires c < |w.calls| && |w.history| > 0
    ensures var v := Execute(w, LastStep(c, false)); IsIdle(v, c) && IsSameCall(w, v, c) && v.history == w.history
  {
    OneStep(w, Abandon(c));
  }

  /** One attempt of the loop does to the history what its steps do, among any
      steps of pods, other writers and other calls. */
  lemma {:induction false} AttemptRefines(w: World, c: nat, a: Attempt, e: Surroundings, guarded: bool)
    requires IsIdle(w, c) && |w.history| > 0 && IsTruthful(w, c, a, e)
    ensures var lands := Lands(w.history, w.calls[c].id, w.calls[c].patch, a, guarded);
            var v := Execute(w, AttemptSteps(c, a, e, lands));
            && v == AfterAttempt(w, c, a, e, lands) && IsIdle(v, c) && IsSameCall(w, v, c)
            && v.history == AttemptHistory(w.history, w.calls[c].id, w.calls[c].patch, a, guarded)
  {
    var lands := Lands(w.history, w.calls[c].id, w.calls[c].patch, a, guarded);
    StepsLeadThere(w, c, a, e, lands);
    PodsAreListed(w, c, a, e);
    var at := AtUpdate(w, c, a, e);
    if lands {
      assert at.history == AtRun(w, e).history == w.history + a.earlier;
      UpdateLands(at, c);
    } else {
      CallGivesUp(at, c);
    }
  }

  /** Every attempt that is made observes truthfully among its surroundings. */
  ghost predicate IsTruthfulWrite(w: World, c: nat, attempts: seq<Attempt>, around: seq<Surroundings>, guarded: bool)
    requires c < |w.calls|
    decreases |attempts|
  {
    attempts != [] ==>
      && |around| == |attempts| && IsTruthful(w, c, attempts[0], around[0])
      && var lands := Lands(w.history, w.calls[c].id, w.calls[c].patch, attempts[0], guarded);
         var next := AfterAttempt(w, c, attempts[0], around[0], lands);
         (Retries(w.history, w.calls[c].id, w.calls[c].patch, attempts[0], guarded) ==>
            c < |next.calls| && IsTruthfulWrite(next, c, attempts[1..], around[1..], guarded))
  }

  /** Refinement: a call of the writer, with all its retries, and whatever pods,
      other writers and other calls do before, between and after each of its steps,
      is an execution of this protocol, so that every theorem above holds of the
      histories it writes. */
  lemma {:induction false} WriteRefines(w: World, c: nat, attempts: seq<Attempt>, around: seq<Surroundings>, guarded: bool)
    returns (actions: seq<Action>)
    requires IsIdle(w, c) && |w.history| > 0 && IsTruthfulWrite(w, c, attempts, around, guarded)
    ensures Execute(w, actions).history == WriteHistory(w.history, w.calls[c].id, w.calls[c].patch, attempts, guarded)
    decreases |attempts|
  {
    if attempts == [] {
      return [];
    }
    var lands := Lands(w.history, w.calls[c].id, w.calls[c].patch, attempts[0], guarded);
    AttemptRefines(w, c, attempts[0], around[0], guarded);
    actions := AttemptSteps(c, attempts[0], around[0], lands);
    if Retries(w.history, w.calls[c].id, w.calls[c].patch, attempts[0], guarded) {
      var next := AfterAttempt(w, c, attempts[0], around[0], lands);
      var rest := WriteRefines(next, c, attempts[1..], around[1..], guarded);
      ExecuteInTwo(w, actions, rest);
      actions := actions + rest;
    }
  }
}
