/** The publication engine: preflight, one push, mandatory postflight, and the
    one piece of process-local evidence (internal/broker/policy.go:67-464). */
module Publication {
  import opened Options
  import opened Branch
  import opened Policy

  /** A live observation of one ref; `present` says that the ref exists. */
  datatype RepositoryState = RepositoryState(
    repo: string, ref: string, present: bool, oid: Oid, isDefault: bool,
    isProtected: bool, protectionKnown: bool, writable: bool, writeKnown: bool)

  datatype PullRequestState = PullRequestState(
    number: int, open: bool, baseRepo: string, baseRef: string, headRepo: string, headRef: string,
    headOid: Oid, body: string)

  /** One complete observation; a read that failed is None. */
  datatype Observation = Observation(base: Option<RepositoryState>, work: Option<RepositoryState>, pr: Option<PullRequestState>)

  datatype PublicationRequest = PublicationRequest(runUid: string, expectedWorkOid: Oid, proposedOid: Oid)

  datatype PublicationResult = PublicationResult(oid: Oid, alreadyPublished: bool)

  /** Commit ancestry: `anc(a, b)` when a is an ancestor of b or b itself. */
  type Ancestry = (Oid, Oid) -> bool

  ghost predicate IsAncestry(anc: Ancestry) {
    && (forall a :: anc(a, a))
    && (forall a, b, c | anc(a, b) && anc(b, c) :: anc(a, c))
    && (forall a, b | anc(a, b) && anc(b, a) :: a == b)
  }

  /** Everything a call sees besides the push's own report: the two
      observations, and which of its three ancestry queries fail. */
  datatype Seen = Seen(before: Observation, baseQueryFails: bool, workQueryFails: bool,
                       after: Observation, lateBaseQueryFails: bool)

  // ---- the checks ----

  predicate Observed(p: Policy, o: Observation) {
    o.base.Some? && o.work.Some? && (p.mode == FixPr ==> o.pr.Some?)
  }

  predicate BaseOk(p: Policy, s: RepositoryState) {
    s.repo == p.baseRepo && s.ref == p.baseRef && s.present && s.oid != ""
  }

  predicate DestinationOk(p: Policy, s: RepositoryState) {
    && s.repo == p.workRepo && s.ref == p.workRef
    && s.protectionKnown && s.writeKnown && !s.isDefault && !s.isProtected && s.writable
    && (s.present || p.workInitiallyAbsent) && (s.present ==> s.oid != "")
  }

  /** For fix-pr, the pinned pull request under its full identity, open, with
      the live work tip as its head, and that head known to this run. */
  predicate PrOk(p: Policy, confirmed: Oid, trusted: Oid, pr: Option<PullRequestState>, workOid: Oid) {
    p.mode == FixPr ==>
      && pr.Some? && pr.value.number == p.prNumber
      && pr.value.baseRepo == p.baseRepo && pr.value.baseRef == p.baseRef
      && pr.value.headRepo == p.workRepo && pr.value.headRef == p.workRef
      && pr.value.open && workOid != "" && pr.value.headOid == workOid
      && (pr.value.headOid == confirmed || pr.value.headOid == trusted || pr.value.headOid == p.headAnchorOid)
  }

  /** Every policy check holds on one observation. */
  predicate ChecksHold(p: Policy, confirmed: Oid, trusted: Oid, o: Observation) {
    && Observed(p, o) && BaseOk(p, o.base.value) && DestinationOk(p, o.work.value)
    && PrOk(p, confirmed, trusted, o.pr, o.work.value.oid)
  }

  predicate RequestOk(p: Policy, req: PublicationRequest) {
    req.runUid != "" && req.runUid == p.runUid && req.proposedOid != ""
    && (req.expectedWorkOid != "" || p.workInitiallyAbsent)
  }

  /** The live tip, if any, is the admitted or the confirmed one. */
  predicate KnownTip(p: Policy, confirmed: Oid, work: RepositoryState) {
    work.present ==> work.oid == confirmed || work.oid == Anchor(p)
  }

  predicate Cleared(p: Policy, confirmed: Oid, req: PublicationRequest, seen: Seen) {
    RequestOk(p, req) && ChecksHold(p, confirmed, "", seen.before) && KnownTip(p, confirmed, seen.before.work.value)
  }

  predicate IsLive(o: Observation, oid: Oid) {
    o.work.Some? && o.work.value.present && o.work.value.oid == oid
  }

  /** The proposal is already live, and this process confirmed it. */
  predicate Repeats(p: Policy, confirmed: Oid, req: PublicationRequest, seen: Seen) {
    && Cleared(p, confirmed, req, seen) && IsLive(seen.before, req.proposedOid) && confirmed == req.proposedOid
    && !(!p.workInitiallyAbsent && req.proposedOid == p.workAnchorOid)
  }

  /** The caller's expectation is the live tip, and the proposal extends both
      the live base and that tip. */
  predicate MayPush(p: Policy, confirmed: Oid, req: PublicationRequest, anc: Ancestry, seen: Seen) {
    && Cleared(p, confirmed, req, seen) && !IsLive(seen.before, req.proposedOid)
    && (if req.expectedWorkOid == "" then !seen.before.work.value.present else IsLive(seen.before, req.expectedWorkOid))
    && !seen.baseQueryFails && anc(seen.before.base.value.oid, req.proposedOid)
    && !seen.workQueryFails
    && anc(if req.expectedWorkOid == "" then p.baseOid else req.expectedWorkOid, req.proposedOid)
  }

  /** After the push, everything is checked again and the exact proposal is live. */
  predicate Landed(p: Policy, req: PublicationRequest, anc: Ancestry, seen: Seen) {
    && ChecksHold(p, "", req.proposedOid, seen.after) && IsLive(seen.after, req.proposedOid)
    && !seen.lateBaseQueryFails && anc(seen.after.base.value.oid, req.proposedOid)
  }

  /** The decision. The push's own report is not among its inputs. */
  predicate Accepts(p: Policy, confirmed: Oid, req: PublicationRequest, anc: Ancestry, seen: Seen) {
    Repeats(p, confirmed, req, seen) || (MayPush(p, confirmed, req, anc, seen) && Landed(p, req, anc, seen))
  }

  /** The evidence after a call: the accepted proposal; nothing once a push was
      made and not confirmed; what it was when the call was refused before. */
  function NextConfirmed(p: Policy, confirmed: Oid, req: PublicationRequest, anc: Ancestry, seen: Seen): Oid {
    if Accepts(p, confirmed, req, anc, seen) then req.proposedOid
    else if MayPush(p, confirmed, req, anc, seen) then ""
    else confirmed
  }

  // ---- the engine ----

  class PolicyEngine {
    const policy: Policy
    var confirmed: Oid

    constructor (policy: Policy)
      requires ValidPolicy(policy)
      ensures this.policy == policy && confirmed == ""
    {
      this.policy := policy;
      confirmed := "";
    }

    /** The checks of one observation, in the source's order. */
    method Check(trusted: Oid, o: Observation) returns (ok: bool)
      ensures ok <==> ChecksHold(policy, confirmed, trusted, o)
    {
      if o.base.None? || o.work.None? || (policy.mode == FixPr && o.pr.None?) { return false; }
      var base := o.base.value;
      if base.repo != policy.baseRepo || base.ref != policy.baseRef || !base.present || base.oid == "" { return false; }
      var work := o.work.value;
      if work.repo != policy.workRepo || work.ref != policy.workRef { return false; }
      if !work.protectionKnown || !work.writeKnown { return false; }
      if work.isDefault || work.isProtected || !work.writable { return false; }
      if !work.present && !policy.workInitiallyAbsent { return false; }
      if work.present && work.oid == "" { return false; }
      if policy.mode != FixPr { return true; }
      var pr := o.pr.value;
      if pr.number != policy.prNumber || pr.baseRepo != policy.baseRepo || pr.baseRef != policy.baseRef { return false; }
      if pr.headRepo != policy.workRepo || pr.headRef != policy.workRef { return false; }
      if !pr.open || work.oid == "" || pr.headOid != work.oid { return false; }
      return confirmed == pr.headOid || trusted == pr.headOid || pr.headOid == policy.headAnchorOid;
    }

    /** Everything up to the push: a final answer, or leave to push. */
    method Preflight(req: PublicationRequest, anc: Ancestry, seen: Seen)
      returns (done: bool, r: Result<PublicationResult, ()>)
      ensures !done <==> MayPush(policy, confirmed, req, anc, seen)
      ensures done ==> (r.Ok? <==> Repeats(policy, confirmed, req, seen))
      ensures r.Ok? ==> r.value == PublicationResult(req.proposedOid, true)
    {
      done, r := true, Err(());
      var p := policy;
      if req.runUid == "" || req.runUid != p.runUid { return; }
      if req.proposedOid == "" || (req.expectedWorkOid == "" && !p.workInitiallyAbsent) { return; }
      var ok := Check("", seen.before);
      if !ok { return; }
      var base, work, pr := seen.before.base.value, seen.before.work.value, seen.before.pr;
      if work.present {
        var anchor := if p.mode == FixPr then p.headAnchorOid else p.workAnchorOid;
        if confirmed != work.oid && work.oid != anchor { return; }
      }
      if work.present && work.oid == req.proposedOid {
        if confirmed != work.oid { return; }
        if p.mode == FixPr && pr.value.headOid != work.oid { return; }
        if !p.workInitiallyAbsent && work.oid == p.workAnchorOid { return; }
        return true, Ok(PublicationResult(req.proposedOid, true));
      }
      if req.expectedWorkOid == "" {
        if !p.workInitiallyAbsent || work.present { return; }
      } else if !work.present || work.oid != req.expectedWorkOid {
        return;
      }
      if seen.baseQueryFails || !anc(base.oid, req.proposedOid) { return; }
      var ancestor := if req.expectedWorkOid == "" then p.baseOid else req.expectedWorkOid;
      if seen.workQueryFails || !anc(ancestor, req.proposedOid) { return; }
      return false, Err(());
    }

    /** Publish. `pushFailed` is the push's own report: it only labels the
        accepted result, and the decision and the evidence do not depend on it. */
    method Publish(req: PublicationRequest, anc: Ancestry, seen: Seen, pushFailed: bool)
      returns (r: Result<PublicationResult, ()>, pushed: bool)
      modifies this`confirmed
      ensures r.Ok? <==> Accepts(policy, old(confirmed), req, anc, seen)
      ensures pushed <==> MayPush(policy, old(confirmed), req, anc, seen)
      ensures confirmed == NextConfirmed(policy, old(confirmed), req, anc, seen)
      ensures r.Ok? ==> r.value == PublicationResult(req.proposedOid, pushed ==> pushFailed)
    {
      pushed := false;
      var done;
      done, r := Preflight(req, anc, seen);
      if done {
        if r.Ok? {
          confirmed := seen.before.work.value.oid;
        }
        return;
      }
      r := Err(());
      confirmed := "";
      pushed := true;
      var ok := Check(req.proposedOid, seen.after);
      if !ok { return; }
      var base, work := seen.after.base.value, seen.after.work.value;
      if !work.present || work.oid != req.proposedOid { return; }
      if seen.lateBaseQueryFails || !anc(base.oid, req.proposedOid) { return; }
      confirmed := req.proposedOid;
      r := Ok(PublicationResult(req.proposedOid, pushFailed));
    }

    /** A new process trusts only the admission anchor. */
    method Restart()
      modifies this`confirmed
      ensures confirmed == ""
    {
      confirmed := "";
    }
  }

  // ---- evidence discipline ----

  /** What one observation has to show, field by field: the pinned base is there;
      the pinned work ref is known to be writable, neither default nor protected,
      and there unless it was absent at admission; and a fix-pr run's pull request
      is open under its full identity, its head the live tip and one this run knows. */
  lemma {:induction false} ChecksHoldExactly(p: Policy, confirmed: Oid, trusted: Oid, o: Observation)
    ensures ChecksHold(p, confirmed, trusted, o) <==>
            && o.base.Some? && o.work.Some?
            && o.base.value.repo == p.baseRepo && o.base.value.ref == p.baseRef && o.base.value.present && o.base.value.oid != ""
            && o.work.value.repo == p.workRepo && o.work.value.ref == p.workRef
            && o.work.value.protectionKnown && !o.work.value.isDefault && !o.work.value.isProtected
            && o.work.value.writeKnown && o.work.value.writable
            && (if o.work.value.present then o.work.value.oid != "" else p.workInitiallyAbsent)
            && (p.mode == FixPr ==>
                  && o.pr.Some? && o.pr.value.open && o.pr.value.number == p.prNumber
                  && o.pr.value.baseRepo == p.baseRepo && o.pr.value.baseRef == p.baseRef
                  && o.pr.value.headRepo == p.workRepo && o.pr.value.headRef == p.workRef
                  && o.pr.value.headOid == o.work.value.oid && o.work.value.oid != ""
                  && o.work.value.oid in {confirmed, trusted, p.headAnchorOid})
  {
  }

  /** The world in which a push is made, in terms of what was observed and asked:
      the request is this run's and proposes something new; the base is there; the
      work ref is the pinned one, writable, neither default nor protected, and its
      tip is the expected one and one this run knows; the proposal contains both
      tips; and a fix-pr run's pull request is open with that tip as its head. */
  lemma {:induction false} PushesExactly(p: Policy, confirmed: Oid, req: PublicationRequest, anc: Ancestry, seen: Seen)
    requires ValidPolicy(p)
    ensures MayPush(p, confirmed, req, anc, seen) <==>
            && req.runUid == p.runUid && req.proposedOid != ""
            && seen.before.base.Some? && seen.before.work.Some?
            && var base, work := seen.before.base.value, seen.before.work.value;
            && base.repo == p.baseRepo && base.ref == p.baseRef && base.present && base.oid != ""
            && work.repo == p.workRepo && work.ref == p.workRef && work.protectionKnown && work.writeKnown
            && !work.isDefault && !work.isProtected && work.writable
            && (if req.expectedWorkOid == "" then p.workInitiallyAbsent && !work.present
                else && work.present && work.oid == req.expectedWorkOid && work.oid != req.proposedOid
                     && work.oid in {confirmed, if p.mode == FixPr then p.headAnchorOid else p.workAnchorOid})
            && (p.mode == FixPr ==>
                  && seen.before.pr.Some? && seen.before.pr.value.open && seen.before.pr.value.number == p.prNumber
                  && seen.before.pr.value.baseRepo == p.baseRepo && seen.before.pr.value.baseRef == p.baseRef
                  && seen.before.pr.value.headRepo == p.workRepo && seen.before.pr.value.headRef == p.workRef
                  && seen.before.pr.value.headOid == work.oid && work.oid in {confirmed, p.headAnchorOid})
            && !seen.baseQueryFails && anc(base.oid, req.proposedOid)
            && !seen.workQueryFails && anc(if req.expectedWorkOid == "" then p.baseOid else req.expectedWorkOid, req.proposedOid)
  {
    ChecksHoldExactly(p, confirmed, "", seen.before);
  }

  /** What is accepted, in the same terms: after a push, the exact proposal is live
      on the pinned work ref, every check holds again and it contains the base tip
      of then; without one, the proposal was live already, the process had confirmed
      it and it is not the admitted anchor. */
  lemma {:induction false} AcceptsExactly(p: Policy, confirmed: Oid, req: PublicationRequest, anc: Ancestry, seen: Seen)
    requires ValidPolicy(p)
    ensures MayPush(p, confirmed, req, anc, seen) ==>
            (Accepts(p, confirmed, req, anc, seen) <==>
             && seen.after.base.Some? && seen.after.work.Some?
             && var base, work := seen.after.base.value, seen.after.work.value;
             && base.repo == p.baseRepo && base.ref == p.baseRef && base.present && base.oid != ""
             && work.repo == p.workRepo && work.ref == p.workRef && work.protectionKnown && work.writeKnown
             && !work.isDefault && !work.isProtected && work.writable && work.present && work.oid == req.proposedOid
             && (p.mode == FixPr ==>
                   && seen.after.pr.Some? && seen.after.pr.value.open && seen.after.pr.value.number == p.prNumber
                   && seen.after.pr.value.baseRepo == p.baseRepo && seen.after.pr.value.baseRef == p.baseRef
                   && seen.after.pr.value.headRepo == p.workRepo && seen.after.pr.value.headRef == p.workRef
                   && seen.after.pr.value.headOid == req.proposedOid)
             && !seen.lateBaseQueryFails && anc(base.oid, req.proposedOid))
    ensures !MayPush(p, confirmed, req, anc, seen) ==>
            (Accepts(p, confirmed, req, anc, seen) <==>
             && req.runUid == p.runUid && req.proposedOid != "" && (req.expectedWorkOid == "" ==> p.workInitiallyAbsent)
             && seen.before.base.Some? && seen.before.work.Some?
             && var base, work := seen.before.base.value, seen.before.work.value;
             && base.repo == p.baseRepo && base.ref == p.baseRef && base.present && base.oid != ""
             && work.repo == p.workRepo && work.ref == p.workRef && work.protectionKnown && work.writeKnown
             && !work.isDefault && !work.isProtected && work.writable && work.present
             && work.oid == req.proposedOid == confirmed
             && (p.workInitiallyAbsent || confirmed != p.workAnchorOid)
             && (p.mode == FixPr ==>
                   && seen.before.pr.Some? && seen.before.pr.value.open && seen.before.pr.value.number == p.prNumber
                   && seen.before.pr.value.baseRepo == p.baseRepo && seen.before.pr.value.baseRef == p.baseRef
                   && seen.before.pr.value.headRepo == p.workRepo && seen.before.pr.value.headRef == p.workRef
                   && seen.before.pr.value.headOid == confirmed))
  {
    ChecksHoldExactly(p, confirmed, "", seen.before);
    ChecksHoldExactly(p, "", req.proposedOid, seen.after);
  }

  /** Success rests on observations that all show the pinned, writable, unprotected
      work ref and the pinned base; in the last of them the exact proposal is live,
      it contains every base tip that was seen, and it is the evidence from then on. */
  lemma {:induction false} AcceptedMeansVerified(p: Policy, confirmed: Oid, req: PublicationRequest, anc: Ancestry, seen: Seen)
    requires ValidPolicy(p) && Accepts(p, confirmed, req, anc, seen)
    ensures var pushed := MayPush(p, confirmed, req, anc, seen);
            var last := if pushed then seen.after else seen.before;
            && (forall o | o in {seen.before, last} ::
                  && o.base.Some? && o.base.value.repo == p.baseRepo && o.base.value.ref == p.baseRef && o.base.value.present
                  && o.work.Some? && o.work.value.repo == p.workRepo && o.work.value.ref == p.workRef
                  && o.work.value.protectionKnown && o.work.value.writeKnown && o.work.value.writable
                  && !o.work.value.isDefault && !o.work.value.isProtected
                  && (p.mode == FixPr ==> o.pr.Some? && o.pr.value.open && o.pr.value.number == p.prNumber
                                          && o.pr.value.headOid == o.work.value.oid)
                  && (pushed ==> anc(o.base.value.oid, req.proposedOid)))
            && last.work.value.present && last.work.value.oid == req.proposedOid != ""
            && (!pushed ==> confirmed == req.proposedOid)
    ensures NextConfirmed(p, confirmed, req, anc, seen) == req.proposedOid
  {
    AcceptsExactly(p, confirmed, req, anc, seen);
    PushesExactly(p, confirmed, req, anc, seen);
  }

  /** A call that is not accepted leaves no evidence once it has pushed, and what
      there was before when it was refused earlier. */
  lemma {:induction false} UnconfirmedPushLeavesNothing(p: Policy, confirmed: Oid, req: PublicationRequest, anc: Ancestry, seen: Seen)
    requires !Accepts(p, confirmed, req, anc, seen)
    ensures NextConfirmed(p, confirmed, req, anc, seen) == if MayPush(p, confirmed, req, anc, seen) then "" else confirmed
  {
  }

  // ---- lineage over whole runs ----

  /** The life of a run's broker: publications against any world, and restarts.
      Other calls leave the evidence alone. */
  datatype Event = Publication(req: PublicationRequest, seen: Seen) | Restarted

  function After(p: Policy, anc: Ancestry, confirmed: Oid, events: seq<Event>): Oid
    decreases |events|
  {
    if events == [] then confirmed
    else
      var next := match events[0]
        case Publication(req, seen) => NextConfirmed(p, confirmed, req, anc, seen)
        case Restarted => "";
      After(p, anc, next, events[1..])
  }

  /** Confirmed evidence descends from the admission root and is not the anchor. */
  ghost predicate Traced(p: Policy, anc: Ancestry, confirmed: Oid) {
    confirmed != "" ==> anc(AdmissionRoot(p), confirmed) && confirmed != Anchor(p)
  }

  lemma {:induction false} PublicationKeepsLineage(p: Policy, anc: Ancestry, confirmed: Oid, req: PublicationRequest, seen: Seen)
    requires Anchored(p) && IsAncestry(anc) && Traced(p, anc, confirmed)
    ensures Traced(p, anc, NextConfirmed(p, confirmed, req, anc, seen))
  {
    if MayPush(p, confirmed, req, anc, seen) && Landed(p, req, anc, seen) {
      var root := AdmissionRoot(p);
      if req.expectedWorkOid != "" {
        var tip := req.expectedWorkOid;
        assert tip == confirmed || tip == Anchor(p);
        assert anc(root, tip);
        assert anc(root, req.proposedOid);
      }
    }
  }

  lemma {:induction false} LineageFrom(p: Policy, anc: Ancestry, confirmed: Oid, events: seq<Event>)
    requires Anchored(p) && IsAncestry(anc) && Traced(p, anc, confirmed)
    ensures Traced(p, anc, After(p, anc, confirmed, events))
    decreases |events|
  {
    if events != [] {
      match events[0] {
        case Publication(req, seen) =>
          PublicationKeepsLineage(p, anc, confirmed, req, seen);
          LineageFrom(p, anc, NextConfirmed(p, confirmed, req, anc, seen), events[1..]);
        case Restarted =>
          LineageFrom(p, anc, "", events[1..]);
      }
    }
  }

  /** Lineage of confirmed tips: whatever the remote does between any two
      observations and however often the broker restarts, the evidence of a run
      whose policy was bound descends from the admission root and is never the
      anchor, so the "proposal is the admitted anchor" denial cannot happen. */
  lemma {:induction false} LineageOfConfirmedTips(sha: Sha256, run: Run, providerRef: string, canonicalSpecRepo: string,
                               anc: Ancestry, events: seq<Event>)
    requires PolicyFromRun(sha, run, providerRef, canonicalSpecRepo).Ok? && IsAncestry(anc)
    ensures var p := PolicyFromRun(sha, run, providerRef, canonicalSpecRepo).value;
            var confirmed := After(p, anc, "", events);
            && Traced(p, anc, confirmed)
            && forall req, seen | Cleared(p, confirmed, req, seen) && IsLive(seen.before, req.proposedOid) && confirmed == req.proposedOid ::
                 Repeats(p, confirmed, req, seen)
  {
    AcceptedPolicyIsAnchored(sha, run, providerRef, canonicalSpecRepo);
    LineageFrom(PolicyFromRun(sha, run, providerRef, canonicalSpecRepo).value, anc, "", events);
  }

  // ---- exactly which validated policies have this property ----

  /** Over every run, confirmed evidence descends from the admission root. */
  ghost predicate DescentHolds(p: Policy) {
    forall anc: Ancestry, events: seq<Event> | IsAncestry(anc) ::
      var confirmed := After(p, anc, "", events);
      confirmed != "" ==> anc(AdmissionRoot(p), confirmed)
  }

  /** ... and is moreover never the anchor. */
  ghost predicate LineageHolds(p: Policy) {
    forall anc: Ancestry, events: seq<Event> | IsAncestry(anc) :: Traced(p, anc, After(p, anc, "", events))
  }

  /** A work ref that was absent at admission and still carries an anchor. */
  predicate StrayAnchor(p: Policy) {
    p.workInitiallyAbsent && Anchor(p) != ""
  }

  /** Only a resolve-issue policy gets through validation like that. */
  lemma {:induction false} StrayAnchorIsResolveIssue(p: Policy)
    requires ValidPolicy(p)
    ensures StrayAnchor(p) ==> p.mode == ResolveIssue
    ensures Anchored(p) <==> !StrayAnchor(p)
  {
  }

  lemma {:induction false} DescentFrom(p: Policy, anc: Ancestry, confirmed: Oid, events: seq<Event>)
    requires ValidPolicy(p) && (StrayAnchor(p) ==> Anchor(p) == p.baseOid) && IsAncestry(anc)
    requires confirmed != "" ==> anc(AdmissionRoot(p), confirmed)
    ensures var c := After(p, anc, confirmed, events); c != "" ==> anc(AdmissionRoot(p), c)
    decreases |events|
  {
    if events != [] {
      match events[0] {
        case Publication(req, seen) =>
          var next := NextConfirmed(p, confirmed, req, anc, seen);
          if next != "" && next != confirmed && req.expectedWorkOid != "" {
            assert anc(AdmissionRoot(p), req.expectedWorkOid);
          }
          DescentFrom(p, anc, next, events[1..]);
        case Restarted =>
          DescentFrom(p, anc, "", events[1..]);
      }
    }
  }

  /** A work tip or base tip under the policy's names that passes its checks. */
  function PlainWork(p: Policy, present: bool, oid: Oid): RepositoryState {
    RepositoryState(p.workRepo, p.workRef, present, oid, false, false, true, true, true)
  }

  function PlainBase(p: Policy, oid: Oid): RepositoryState {
    RepositoryState(p.baseRepo, p.baseRef, true, oid, false, false, true, true, true)
  }

  /** One publication on top of a stray anchor confirms a commit unrelated to the base. */
  lemma {:induction false} StrayAnchorEscapes(p: Policy)
    requires ValidPolicy(p) && StrayAnchor(p) && Anchor(p) != p.baseOid
    ensures !DescentHolds(p)
  {
    var anchor := Anchor(p);
    var tip := anchor + p.baseOid + "+";
    var anc: Ancestry := (a, b) => a == b || (a == anchor && b == tip);
    assert IsAncestry(anc);
    var before := Observation(Some(PlainBase(p, anchor)), Some(PlainWork(p, true, anchor)), None);
    var after := Observation(Some(PlainBase(p, anchor)), Some(PlainWork(p, true, tip)), None);
    var req := PublicationRequest(p.runUid, anchor, tip);
    var events := [Publication(req, Seen(before, false, false, after, false))];
    assert MayPush(p, "", req, anc, events[0].seen) && Landed(p, req, anc, events[0].seen);
    assert events[1..] == [];
    assert After(p, anc, "", events) == tip;
    assert |tip| > |p.baseOid| && AdmissionRoot(p) == p.baseOid;
    assert !anc(p.baseOid, tip);
  }

  /** Where the stray anchor is the base commit, that commit itself is confirmed. */
  lemma {:induction false} StrayAnchorIsConfirmed(p: Policy)
    requires ValidPolicy(p) && StrayAnchor(p) && Anchor(p) == p.baseOid
    ensures !LineageHolds(p)
  {
    var anc: Ancestry := (a, b) => a == b;
    assert IsAncestry(anc);
    var before := Observation(Some(PlainBase(p, p.baseOid)), Some(PlainWork(p, false, "")), None);
    var after := Observation(Some(PlainBase(p, p.baseOid)), Some(PlainWork(p, true, p.baseOid)), None);
    var req := PublicationRequest(p.runUid, "", p.baseOid);
    var events := [Publication(req, Seen(before, false, false, after, false))];
    assert MayPush(p, "", req, anc, events[0].seen) && Landed(p, req, anc, events[0].seen);
    assert events[1..] == [];
    assert After(p, anc, "", events) == p.baseOid;
    assert !Traced(p, anc, After(p, anc, "", events));
  }

  /** A validated policy keeps every confirmed tip on its lineage and off its
      anchor exactly when it has no stray anchor ... */
  lemma {:induction false} LineageExactly(p: Policy)
    requires ValidPolicy(p)
    ensures LineageHolds(p) <==> !StrayAnchor(p)
  {
    StrayAnchorIsResolveIssue(p);
    if StrayAnchor(p) {
      if Anchor(p) == p.baseOid {
        StrayAnchorIsConfirmed(p);
      } else {
        StrayAnchorEscapes(p);
        LineageImpliesDescent(p);
      }
    } else {
      forall anc: Ancestry, events: seq<Event> | IsAncestry(anc)
        ensures Traced(p, anc, After(p, anc, "", events))
      {
        LineageFrom(p, anc, "", events);
      }
    }
  }

  lemma {:induction false} LineageImpliesDescent(p: Policy)
    ensures LineageHolds(p) ==> DescentHolds(p)
  {
    if LineageHolds(p) {
      forall anc: Ancestry, events: seq<Event> | IsAncestry(anc)
        ensures var c := After(p, anc, "", events); c != "" ==> anc(AdmissionRoot(p), c)
      {
        assert Traced(p, anc, After(p, anc, "", events));
      }
    }
  }

  /** ... and on its lineage alone exactly when a stray anchor is the base commit. */
  lemma {:induction false} DescentExactly(p: Policy)
    requires ValidPolicy(p)
    ensures DescentHolds(p) <==> (StrayAnchor(p) ==> Anchor(p) == p.baseOid)
  {
    if StrayAnchor(p) && Anchor(p) != p.baseOid {
      StrayAnchorEscapes(p);
    } else {
      forall anc: Ancestry, events: seq<Event> | IsAncestry(anc)
        ensures var c := After(p, anc, "", events); c != "" ==> anc(AdmissionRoot(p), c)
      {
        DescentFrom(p, anc, "", events);
      }
    }
  }
}
