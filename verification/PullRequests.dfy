/** Opening the run's pull request at most once: discover, adopt or create, then
    recheck (internal/broker/policy.go:466-642, 697-699; internal/broker/forge_adapter.go). */
module PullRequests {
  import opened Options
  import opened Policy
  import opened Publication

  /** A pull request on the forge, and whether a broker of this run created it. */
  datatype Pull = Pull(state: PullRequestState, byBroker: bool)

  /** How one provider call is answered, and whether it fails. */
  datatype Happening = Happening(fails: bool, answerLost: bool, base: RepositoryState, work: RepositoryState, pull: PullRequestState)

  /** The provider seen from a run: the answer to each call, and what others have
      made of the list of pull requests by the time of each call. */
  datatype World = World(answer: nat -> Happening, drift: (nat, seq<Pull>) -> seq<Pull>)

  /** Number, repositories and head ref of a pull request never change. */
  predicate SameIdentity(a: Pull, b: Pull) {
    && a.state.number == b.state.number && a.state.baseRepo == b.state.baseRepo
    && a.state.headRepo == b.state.headRepo && a.state.headRef == b.state.headRef && a.byBroker == b.byBroker
  }

  /** What others may do to the list: edit records, close them, move their heads,
      retarget them, open new ones; never remove one. */
  predicate Evolves(a: seq<Pull>, b: seq<Pull>) {
    && |a| <= |b|
    && (forall i | 0 <= i < |a| :: SameIdentity(a[i], b[i]))
    && (forall i | |a| <= i < |b| :: !b[i].byBroker)
  }

  function BrokerCount(pulls: seq<Pull>): nat {
    if pulls == [] then 0
    else BrokerCount(pulls[..|pulls| - 1]) + if pulls[|pulls| - 1].byBroker then 1 else 0
  }

  /** The record claims the pinned head against the pinned base repository. */
  predicate ClaimsHead(p: Policy, s: PullRequestState) {
    s.baseRepo == p.baseRepo && s.headRepo == p.workRepo && s.headRef == p.workRef
  }

  /** Everything a broker created is a pull request of the pinned head. */
  predicate BrokerPullsPinned(p: Policy, pulls: seq<Pull>) {
    forall i | 0 <= i < |pulls| && pulls[i].byBroker :: ClaimsHead(p, pulls[i].state)
  }

  predicate CompleteIdentity(s: PullRequestState) {
    s.number > 0 && s.baseRef != "" && s.headOid != ""
  }

  /** The complete listing of the pinned head. */
  function Claims(p: Policy, pulls: seq<Pull>): seq<PullRequestState> {
    if pulls == [] then []
    else Claims(p, pulls[..|pulls| - 1])
         + if ClaimsHead(p, pulls[|pulls| - 1].state) then [pulls[|pulls| - 1].state] else []
  }

  predicate MatchesPr(p: Policy, s: PullRequestState, oid: Oid) {
    && s.number > 0 && s.open && s.baseRepo == p.baseRepo && s.baseRef == p.baseRef
    && s.headRepo == p.workRepo && s.headRef == p.workRef && s.headOid == oid
  }

  lemma {:induction false} EvolvingKeepsCount(a: seq<Pull>, b: seq<Pull>)
    requires Evolves(a, b)
    ensures BrokerCount(b) == BrokerCount(a)
    decreases |b|
  {
    if |b| > |a| {
      EvolvingKeepsCount(a, b[..|b| - 1]);
    } else if |a| > 0 {
      assert SameIdentity(a[|a| - 1], b[|b| - 1]);
      EvolvingKeepsCount(a[..|a| - 1], b[..|b| - 1]);
    }
  }

  lemma {:induction false} EvolvesTransitive(a: seq<Pull>, b: seq<Pull>, c: seq<Pull>)
    requires Evolves(a, b) && Evolves(b, c)
    ensures Evolves(a, c)
  {
    forall i | 0 <= i < |a|
      ensures SameIdentity(a[i], c[i])
    {
      assert SameIdentity(a[i], b[i]) && SameIdentity(b[i], c[i]);
    }
    forall i | |a| <= i < |c|
      ensures !c[i].byBroker
    {
      assert i < |b| ==> SameIdentity(b[i], c[i]);
    }
  }

  lemma {:induction false} EvolvingKeepsPins(p: Policy, a: seq<Pull>, b: seq<Pull>)
    requires Evolves(a, b) && BrokerPullsPinned(p, a)
    ensures BrokerPullsPinned(p, b)
  {
    forall i | 0 <= i < |b| && b[i].byBroker
      ensures ClaimsHead(p, b[i].state)
    {
      assert SameIdentity(a[i], b[i]);
    }
  }

  /** A pull request that some broker created is in every complete listing. */
  lemma {:induction false} CreatedIsListed(p: Policy, pulls: seq<Pull>)
    requires BrokerPullsPinned(p, pulls) && BrokerCount(pulls) > 0
    ensures Claims(p, pulls) != []
  {
    var last := pulls[|pulls| - 1];
    if !last.byBroker {
      CreatedIsListed(p, pulls[..|pulls| - 1]);
    }
  }

  // ---- what others do between the calls ----

  /** Others may do anything that the forge lets them do, before every call. */
  ghost predicate IsLawful(w: World) {
    forall n, pulls :: IsLawfulAt(w, n, pulls)
  }

  predicate IsLawfulAt(w: World, n: nat, pulls: seq<Pull>) {
    Evolves(pulls, w.drift(n, pulls))
  }

  /** The list that call `u` finds when the calls from `t` on create nothing. */
  function At(w: World, t: nat, pulls: seq<Pull>, u: nat): seq<Pull> {
    if u <= t then pulls else w.drift(u - 1, At(w, t, pulls, u - 1))
  }

  predicate NoneFails(w: World, t: nat, n: nat) {
    forall k: nat | t <= k < t + n :: !w.answer(k).fails
  }

  lemma {:induction false} EvolvesReflexive(a: seq<Pull>)
    ensures Evolves(a, a)
  {
    assert forall i | 0 <= i < |a| :: SameIdentity(a[i], a[i]);
  }

  lemma {:induction false} AtEvolves(w: World, t: nat, pulls: seq<Pull>, u: nat)
    requires IsLawful(w)
    ensures Evolves(pulls, At(w, t, pulls, u))
  {
    EvolvesReflexive(pulls);
    if u > t {
      AtEvolves(w, t, pulls, u - 1);
      assert IsLawfulAt(w, u - 1, At(w, t, pulls, u - 1));
      EvolvesTransitive(pulls, At(w, t, pulls, u - 1), At(w, t, pulls, u));
    }
  }

  lemma {:induction false} AtComposes(w: World, t: nat, pulls: seq<Pull>, m: nat, u: nat)
    requires t <= m <= u
    ensures At(w, m, At(w, t, pulls, m), u) == At(w, t, pulls, u)
  {
    if u > m {
      AtComposes(w, t, pulls, m, u - 1);
    }
  }

  /** Nobody else touches the list, from `t` on. */
  ghost predicate Undisturbed(w: World, t: nat) {
    forall k: nat, pulls | k >= t :: w.drift(k, pulls) == pulls
  }

  lemma {:induction false} UndisturbedStays(w: World, t: nat, pulls: seq<Pull>, u: nat)
    requires Undisturbed(w, t)
    ensures At(w, t, pulls, u) == pulls
  {
    if u > t {
      UndisturbedStays(w, t, pulls, u - 1);
    }
  }

  /** The provider. */
  class Forge {
    const world: World
    var tick: nat
    var pulls: seq<Pull>

    constructor (world: World, pulls: seq<Pull>)
      ensures this.world == world && this.pulls == pulls && tick == 0
    {
      this.world := world;
      this.pulls := pulls;
      tick := 0;
    }

    method Advance() returns (h: Happening)
      modifies this
      ensures h == world.answer(old(tick)) && tick == old(tick) + 1 && pulls == world.drift(old(tick), old(pulls))
    {
      h := world.answer(tick);
      pulls := world.drift(tick, pulls);
      tick := tick + 1;
    }

    method Resolve() returns (ok: bool)
      modifies this
      ensures tick == old(tick) + 1 && pulls == At(world, old(tick), old(pulls), tick)
      ensures ok == !world.answer(old(tick)).fails
    {
      var h := Advance();
      ok := !h.fails;
    }

    method ReadBase() returns (r: Option<RepositoryState>)
      modifies this
      ensures tick == old(tick) + 1 && pulls == At(world, old(tick), old(pulls), tick)
      ensures r == if world.answer(old(tick)).fails then None else Some(world.answer(old(tick)).base)
    {
      var h := Advance();
      r := if h.fails then None else Some(h.base);
    }

    method ReadWork() returns (r: Option<RepositoryState>)
      modifies this
      ensures tick == old(tick) + 1 && pulls == At(world, old(tick), old(pulls), tick)
      ensures r == if world.answer(old(tick)).fails then None else Some(world.answer(old(tick)).work)
    {
      var h := Advance();
      r := if h.fails then None else Some(h.work);
    }

    method ReadPull() returns (r: Option<PullRequestState>)
      modifies this
      ensures tick == old(tick) + 1 && pulls == At(world, old(tick), old(pulls), tick)
      ensures r == if world.answer(old(tick)).fails then None else Some(world.answer(old(tick)).pull)
    {
      var h := Advance();
      r := if h.fails then None else Some(h.pull);
    }

    method List() returns (r: Option<seq<Pull>>)
      modifies this
      ensures tick == old(tick) + 1 && pulls == At(world, old(tick), old(pulls), tick)
      ensures r == if world.answer(old(tick)).fails then None else Some(pulls)
    {
      var h := Advance();
      r := if h.fails then None else Some(pulls);
    }

    /** A create that reports failure may still have created. */
    method Create(p: Policy, body: string) returns (r: Option<PullRequestState>)
      modifies this
      ensures tick == old(tick) + 1
      ensures pulls == AfterCreate(p, At(world, old(tick), old(pulls), tick), world.answer(old(tick)), body)
      ensures r == Reply(world, old(tick))
    {
      var h := Advance();
      if h.fails && !h.answerLost {
        return None;
      }
      pulls := pulls + [Pull(NewPull(p, h.pull.number, h.pull.headOid, body), true)];
      r := if h.fails || h.answerLost then None else Some(h.pull);
    }
  }

  /** The pull request that a create leaves on the forge. */
  function NewPull(p: Policy, number: int, oid: Oid, body: string): PullRequestState {
    PullRequestState(number, true, p.baseRepo, p.baseRef, p.workRepo, p.workRef, oid, body)
  }

  /** The list after a create call: it reports failure, and may have created anyway. */
  function AfterCreate(p: Policy, pulls: seq<Pull>, h: Happening, body: string): seq<Pull> {
    if h.fails && !h.answerLost then pulls
    else pulls + [Pull(NewPull(p, h.pull.number, h.pull.headOid, body), true)]
  }

  /** `b` follows `a` with at most one creation, and that only where no broker had created before. */
  predicate CreatesAtMostOnce(p: Policy, a: seq<Pull>, b: seq<Pull>) {
    && BrokerPullsPinned(p, b)
    && (BrokerCount(b) == BrokerCount(a) || (BrokerCount(a) == 0 && BrokerCount(b) == 1))
  }

  /** A create call adds exactly one pull request of the brokers, or none. */
  lemma {:induction false} CreationCounts(p: Policy, pulls: seq<Pull>, h: Happening, body: string)
    requires BrokerPullsPinned(p, pulls)
    ensures var after := AfterCreate(p, pulls, h, body);
            && BrokerPullsPinned(p, after)
            && BrokerCount(after) == BrokerCount(pulls) + if h.fails && !h.answerLost then 0 else 1
  {
    var after := AfterCreate(p, pulls, h, body);
    if !h.fails || h.answerLost {
      assert after[..|after| - 1] == pulls;
      assert forall i | 0 <= i < |pulls| :: after[i] == pulls[i];
    }
  }

  lemma {:induction false} QuietCounts(p: Policy, a: seq<Pull>, b: seq<Pull>)
    requires Evolves(a, b) && BrokerPullsPinned(p, a)
    ensures BrokerCount(b) == BrokerCount(a) && BrokerPullsPinned(p, b)
  {
    EvolvingKeepsCount(a, b);
    EvolvingKeepsPins(p, a, b);
  }

  /** Exactly which records the listing of the pinned head holds ... */
  lemma {:induction false} ClaimsExactly(p: Policy, pulls: seq<Pull>, s: PullRequestState)
    ensures s in Claims(p, pulls) <==>
            exists i | 0 <= i < |pulls| ::
              pulls[i].state == s && s.baseRepo == p.baseRepo && s.headRepo == p.workRepo && s.headRef == p.workRef
    decreases |pulls|
  {
    if pulls != [] {
      var front := pulls[..|pulls| - 1];
      ClaimsExactly(p, front, s);
      assert forall i | 0 <= i < |front| :: front[i] == pulls[i];
    }
  }

  /** ... and how many. */
  lemma {:induction false} ClaimsAreCounted(p: Policy, pulls: seq<Pull>)
    ensures |Claims(p, pulls)| == |set i | 0 <= i < |pulls| && ClaimsHead(p, pulls[i].state)|
    decreases |pulls|
  {
    if pulls != [] {
      var n := |pulls| - 1;
      var front := pulls[..n];
      ClaimsAreCounted(p, front);
      var few := set i | 0 <= i < |front| && ClaimsHead(p, front[i].state);
      var all := set i | 0 <= i < |pulls| && ClaimsHead(p, pulls[i].state);
      assert all == if ClaimsHead(p, pulls[n].state) then few + {n} else few;
    }
  }

  lemma {:induction false} AtCounts(p: Policy, w: World, t: nat, pulls: seq<Pull>, u: nat)
    requires IsLawful(w) && BrokerPullsPinned(p, pulls)
    ensures BrokerCount(At(w, t, pulls, u)) == BrokerCount(pulls) && BrokerPullsPinned(p, At(w, t, pulls, u))
  {
    AtEvolves(w, t, pulls, u);
    QuietCounts(p, pulls, At(w, t, pulls, u));
  }

  /** What the listing that starts at `t` answers: the pinned head's pull requests,
      or nothing when a call fails or one of them is incomplete. */
  function Listing(p: Policy, w: World, t: nat, pulls: seq<Pull>): Option<seq<PullRequestState>> {
    var claims := Claims(p, At(w, t, pulls, t + 3));
    if NoneFails(w, t, 3) && AreComplete(claims) then Some(claims) else None
  }

  predicate IsSole(listing: Option<seq<PullRequestState>>, n: int) {
    listing.Some? && |listing.value| == 1 && listing.value[0].number == n
  }

  /** A created pull request reads back under its number from call `t` on, and
      is then the only claim. */
  predicate ReadsBack(p: Policy, w: World, t: nat, pulls: seq<Pull>, n: int) {
    && !w.answer(t).fails && w.answer(t).pull.number == n && ClaimsHead(p, w.answer(t).pull)
    && NoneFails(w, t + 1, 2) && IsSole(Listing(p, w, t + 3, At(w, t, pulls, t + 3)), n)
  }

  /** What the create call at `t` answers. */
  function Reply(w: World, t: nat): Option<PullRequestState> {
    if w.answer(t).fails || w.answer(t).answerLost then None else Some(w.answer(t).pull)
  }

  /** An answer that names a pull request under the pinned identity. */
  predicate IsReply(p: Policy, reply: Option<PullRequestState>) {
    && reply.Some? && reply.value.number > 0 && reply.value.headOid != ""
    && reply.value.baseRef == p.baseRef && ClaimsHead(p, reply.value)
  }

  /** The list right after the create call of an adapter that starts at `t`. */
  function Made(p: Policy, w: World, t: nat, pulls: seq<Pull>, body: string): seq<Pull> {
    AfterCreate(p, At(w, t, pulls, t + 8), w.answer(t + 7), body)
  }

  /** The adapter that starts at `t` finds no claim on the head. */
  predicate FindsNone(p: Policy, w: World, t: nat, pulls: seq<Pull>) {
    Listing(p, w, t + 4, At(w, t, pulls, t + 4)) == Some([])
  }

  /** The list at `u`, when an adapter started a create at `t`: nothing was created,
      or one pull request, after a listing without claims. */
  predicate Follows(p: Policy, w: World, t: nat, pulls: seq<Pull>, body: string, u: nat, after: seq<Pull>) {
    || (t <= u && after == At(w, t, pulls, u))
    || (t + 8 <= u && FindsNone(p, w, t, pulls) && after == At(w, t + 8, Made(p, w, t, pulls, body), u))
  }

  /** What a create of the adapter from `t` to `u` leaves and answers. */
  predicate CreateEnds(p: Policy, w: World, t: nat, pulls: seq<Pull>, body: string, u: nat, after: seq<Pull>, number: Option<int>) {
    && Follows(p, w, t, pulls, body, u, after)
    && number == (if IsVerified(p, w, t, pulls, body) then Some(w.answer(t + 7).pull.number) else None)
    && (number.Some? ==> u == t + 14 && after == At(w, t + 8, Made(p, w, t, pulls, body), t + 14))
  }

  /** So a create leaves at most one pull request of the brokers. */
  lemma {:induction false} FollowingCounts(p: Policy, w: World, t: nat, pulls: seq<Pull>, body: string, u: nat, after: seq<Pull>)
    requires IsLawful(w) && BrokerPullsPinned(p, pulls) && Follows(p, w, t, pulls, body, u, after)
    ensures CreatesAtMostOnce(p, pulls, after)
  {
    AtCounts(p, w, t, pulls, u);
    if after != At(w, t, pulls, u) {
      NoneFoundMeansNoneMade(p, w, t, pulls);
      AtCounts(p, w, t, pulls, t + 8);
      CreationCounts(p, At(w, t, pulls, t + 8), w.answer(t + 7), body);
      AtCounts(p, w, t + 8, Made(p, w, t, pulls, body), u);
    }
  }

  lemma {:induction false} NoneFoundMeansNoneMade(p: Policy, w: World, t: nat, pulls: seq<Pull>)
    requires IsLawful(w) && BrokerPullsPinned(p, pulls) && FindsNone(p, w, t, pulls)
    ensures BrokerCount(pulls) == 0
  {
    AtComposes(w, t, pulls, t + 4, t + 7);
    AtCounts(p, w, t, pulls, t + 7);
    if BrokerCount(pulls) > 0 {
      CreatedIsListed(p, At(w, t, pulls, t + 7));
    }
  }

  lemma {:induction false} FollowingComposes(p: Policy, w: World, t: nat, pulls: seq<Pull>, body: string, u: nat, after: seq<Pull>, v: nat)
    requires Follows(p, w, t, pulls, body, u, after) && u <= v
    ensures Follows(p, w, t, pulls, body, v, At(w, u, after, v))
  {
    if t <= u && after == At(w, t, pulls, u) {
      AtComposes(w, t, pulls, u, v);
    } else {
      AtComposes(w, t + 8, Made(p, w, t, pulls, body), u, v);
    }
  }

  /** The adapter's create succeeds: no call fails, a fresh listing is empty, the
      answer arrives under the pinned identity, and the result reads back. */
  predicate IsVerified(p: Policy, w: World, t: nat, pulls: seq<Pull>, body: string) {
    && NoneFails(w, t, 4) && FindsNone(p, w, t, pulls)
    && IsReply(p, Reply(w, t + 7)) && ReadsBack(p, w, t + 8, Made(p, w, t, pulls, body), w.answer(t + 7).pull.number)
  }

  lemma {:induction false} IncompleteFails(p: Policy, pulls: seq<Pull>, i: nat)
    requires i < |pulls| && ClaimsHead(p, pulls[i].state) && !CompleteIdentity(pulls[i].state)
    ensures !AreComplete(Claims(p, pulls))
  {
    ClaimsExactly(p, pulls, pulls[i].state);
  }

  predicate AreComplete(claims: seq<PullRequestState>) {
    forall i | 0 <= i < |claims| :: CompleteIdentity(claims[i])
  }

  /** The scan of one listing: foreign records are skipped and an incomplete one
      of the pinned head fails it. */
  method Filter(p: Policy, pulls: seq<Pull>) returns (r: Option<seq<PullRequestState>>)
    ensures r == if AreComplete(Claims(p, pulls)) then Some(Claims(p, pulls)) else None
  {
    var out: seq<PullRequestState> := [];
    for i := 0 to |pulls|
      invariant out == Claims(p, pulls[..i]) && AreComplete(out)
    {
      assert pulls[..i + 1][..i] == pulls[..i];
      var s := pulls[i].state;
      if s.baseRepo == p.baseRepo && s.headRepo == p.workRepo && s.headRef == p.workRef {
        if s.number <= 0 || s.baseRef == "" || s.headOid == "" {
          IncompleteFails(p, pulls, i);
          return None;
        }
        out := out + [s];
      }
    }
    assert pulls[..|pulls|] == pulls;
    return Some(out);
  }

  class ForgeAdapter {
    const policy: Policy
    const forge: Forge
    var created: set<int>

    constructor (policy: Policy, forge: Forge)
      ensures this.policy == policy && this.forge == forge && created == {}
    {
      this.policy := policy;
      this.forge := forge;
      created := {};
    }

    /** The pinned head's pull requests, in every state; foreign records are
        skipped and an incomplete one fails the listing. */
    method FindPullRequest() returns (r: Option<seq<PullRequestState>>)
      modifies forge
      ensures forge.tick > old(forge.tick) && forge.pulls == At(forge.world, old(forge.tick), old(forge.pulls), forge.tick)
      ensures r == Listing(policy, forge.world, old(forge.tick), old(forge.pulls))
      ensures r.Some? ==> forge.tick == old(forge.tick) + 3 && r.value == Claims(policy, forge.pulls)
    {
      ghost var t, start := forge.tick, forge.pulls;
      var ok := forge.Resolve();
      if !ok { return None; }
      ok := forge.Resolve();
      assert forge.pulls == At(forge.world, t, start, t + 2);
      if !ok { return None; }
      var listed := forge.List();
      assert forge.pulls == At(forge.world, t, start, t + 3);
      if listed.None? { return None; }
      r := Filter(policy, listed.value);
    }

    /** Identity and ref reads that only have to succeed. */
    method Revalidate(n: nat) returns (ok: bool)
      modifies forge
      ensures old(forge.tick) <= forge.tick
      ensures forge.pulls == At(forge.world, old(forge.tick), old(forge.pulls), forge.tick)
      ensures ok <==> NoneFails(forge.world, old(forge.tick), n)
      ensures ok ==> forge.tick == old(forge.tick) + n
    {
      ok := true;
      for i := 0 to n
        invariant forge.tick == old(forge.tick) + i && NoneFails(forge.world, old(forge.tick), i)
        invariant forge.pulls == At(forge.world, old(forge.tick), old(forge.pulls), old(forge.tick) + i)
      {
        ok := forge.Resolve();
        if !ok { return; }
      }
    }

    /** Create only when a fresh complete listing of the pinned head is empty,
        then verify the result before registering its number. */
    method CreatePullRequest(body: string) returns (number: Option<int>)
      modifies this`created, forge
      ensures CreateEnds(policy, forge.world, old(forge.tick), old(forge.pulls), body, forge.tick, forge.pulls, number)
      ensures number.Some? ==> number.value > 0
      ensures created == if number.Some? then old(created) + {number.value} else old(created)
    {
      ghost var t, start, w := forge.tick, forge.pulls, forge.world;
      var free := IsFree();
      if !free { return None; }
      var reply := forge.Create(policy, body);
      AtComposes(w, t, start, t + 7, t + 8);
      number := VerifyReply(reply);
      if number.Some? {
        created := created + {number.value};
      }
    }

    /** The answer to a create names a pull request of the pinned identity that reads back. */
    method VerifyReply(reply: Option<PullRequestState>) returns (number: Option<int>)
      modifies forge
      ensures old(forge.tick) <= forge.tick && forge.pulls == At(forge.world, old(forge.tick), old(forge.pulls), forge.tick)
      ensures number == if IsReply(policy, reply) && ReadsBack(policy, forge.world, old(forge.tick), old(forge.pulls), reply.value.number)
                        then Some(reply.value.number) else None
      ensures number.Some? ==> forge.tick == old(forge.tick) + 6
    {
      if reply.None? { return None; }
      var s := reply.value;
      if s.number <= 0 || s.baseRepo != policy.baseRepo || s.baseRef != policy.baseRef { return None; }
      if s.headRepo != policy.workRepo || s.headRef != policy.workRef || s.headOid == "" { return None; }
      number := VerifyCreated(s.number);
    }

    /** Both repositories are the pinned ones, and a fresh listing is empty. */
    method IsFree() returns (free: bool)
      modifies forge
      ensures old(forge.tick) <= forge.tick && forge.pulls == At(forge.world, old(forge.tick), old(forge.pulls), forge.tick)
      ensures free <==> NoneFails(forge.world, old(forge.tick), 4) && FindsNone(policy, forge.world, old(forge.tick), old(forge.pulls))
      ensures free ==> forge.tick == old(forge.tick) + 7
    {
      ghost var t, start, w := forge.tick, forge.pulls, forge.world;
      var ok := Revalidate(4);
      if !ok { return false; }
      var before := FindPullRequest();
      AtComposes(w, t, start, t + 4, forge.tick);
      return before.Some? && |before.value| == 0;
    }

    /** The checks after a create: the pull request reads back, the repositories
        are still the pinned ones, and the listing holds it alone. */
    method VerifyCreated(n: int) returns (number: Option<int>)
      modifies forge
      ensures old(forge.tick) <= forge.tick && forge.pulls == At(forge.world, old(forge.tick), old(forge.pulls), forge.tick)
      ensures number == if ReadsBack(policy, forge.world, old(forge.tick), old(forge.pulls), n) then Some(n) else None
      ensures number.Some? ==> forge.tick == old(forge.tick) + 6
    {
      ghost var t, start, w := forge.tick, forge.pulls, forge.world;
      var pull := forge.ReadPull();
      if pull.None? || pull.value.number != n { return None; }
      var s := pull.value;
      if s.baseRepo != policy.baseRepo || s.headRepo != policy.workRepo || s.headRef != policy.workRef { return None; }
      var ok := Revalidate(2);
      AtComposes(w, t, start, t + 1, forge.tick);
      if !ok { return None; }
      var matches := FindPullRequest();
      AtComposes(w, t, start, t + 3, forge.tick);
      if matches.None? || |matches.value| != 1 || matches.value[0].number != n { return None; }
      return Some(n);
    }

    /** What the policy lets this adapter read: the pinned pull request of a
        fix-pr run, otherwise one that it created and verified itself. */
    predicate MayRead(number: int)
      reads this`created
    {
      number > 0 && if policy.mode == FixPr then number == policy.prNumber else number in created
    }

    /** A pull request outside the policy reaches no forge call. */
    method PullRequest(number: int) returns (r: Option<PullRequestState>)
      modifies forge
      ensures if number > 0 && (if policy.mode == FixPr then number == policy.prNumber else number in created)
              then && forge.tick == old(forge.tick) + 1 && forge.pulls == At(forge.world, old(forge.tick), old(forge.pulls), forge.tick)
                   && r == if forge.world.answer(old(forge.tick)).fails then None else Some(forge.world.answer(old(forge.tick)).pull)
              else r.None? && forge.tick == old(forge.tick) && forge.pulls == old(forge.pulls)
    {
      if number <= 0 || (policy.mode == FixPr && number != policy.prNumber) || (policy.mode != FixPr && number !in created) {
        return None;
      }
      r := forge.ReadPull();
    }
  }

  // ---- what a call of the broker meets ----

  /** The reads at `t` and `t + 1` show the pinned base, and the given commit as
      the live head of the pinned, writable, unprotected work ref. */
  predicate SeesTip(p: Policy, w: World, t: nat, oid: Oid) {
    && !w.answer(t).fails && BaseOk(p, w.answer(t).base)
    && !w.answer(t + 1).fails && DestinationOk(p, w.answer(t + 1).work)
    && w.answer(t + 1).work.present && oid != "" && w.answer(t + 1).work.oid == oid
  }

  /** What a call discovers: nothing when the body is outside the contract, the
      head is not seen or the listing fails, otherwise the head's pull requests. */
  function Discovered(p: Policy, admits: string -> bool, w: World, t: nat, pulls: seq<Pull>, oid: Oid, body: string): Option<seq<PullRequestState>> {
    if p.mode in {ResolveIssue, Contribute} && admits(body) && SeesTip(p, w, t, oid)
    then Listing(p, w, t + 2, At(w, t, pulls, t + 2))
    else None
  }

  /** Where a call discovers nothing, no broker has created before. */
  lemma {:induction false} DiscoveredNone(p: Policy, admits: string -> bool, w: World, t: nat, pulls: seq<Pull>, oid: Oid, body: string)
    requires IsLawful(w) && BrokerPullsPinned(p, pulls) && Discovered(p, admits, w, t, pulls, oid, body) == Some([])
    ensures BrokerCount(pulls) == 0
  {
    AtComposes(w, t, pulls, t + 2, t + 5);
    AtCounts(p, w, t, pulls, t + 5);
    if BrokerCount(pulls) > 0 {
      CreatedIsListed(p, At(w, t, pulls, t + 5));
    }
  }

  /** The one pull request that claims the head is this run's. */
  predicate IsOurs(p: Policy, admits: string -> bool, found: Option<seq<PullRequestState>>, oid: Oid) {
    found.Some? && |found.value| == 1 && MatchesPr(p, found.value[0], oid) && admits(found.value[0].body)
  }

  /** Nothing claims the head, and it is one this run knows. */
  predicate MayCreate(p: Policy, confirmed: Oid, found: Option<seq<PullRequestState>>, oid: Oid) {
    found == Some([]) && (confirmed == oid || oid == p.workAnchorOid)
  }

  predicate AreAll(p: Policy, claims: Option<seq<PullRequestState>>, number: int, oid: Oid) {
    && claims.Some? && claims.value != []
    && forall k | 0 <= k < |claims.value| :: claims.value[k].number == number && MatchesPr(p, claims.value[k], oid)
  }

  /** The created pull request is read at `t`, the head is seen again, and every
      pull request listed then is this one. */
  predicate Rechecks(p: Policy, w: World, t: nat, pulls: seq<Pull>, number: int, oid: Oid) {
    && !w.answer(t).fails && MatchesPr(p, w.answer(t).pull, oid) && SeesTip(p, w, t + 1, oid)
    && AreAll(p, Listing(p, w, t + 3, At(w, t, pulls, t + 3)), number, oid)
  }

  /** A create that starts at `t` is verified by the adapter and confirmed by the broker. */
  predicate IsConfirmed(p: Policy, w: World, t: nat, pulls: seq<Pull>, oid: Oid, body: string) {
    && IsVerified(p, w, t, pulls, body)
    && Rechecks(p, w, t + 14, At(w, t + 8, Made(p, w, t, pulls, body), t + 14), w.answer(t + 7).pull.number, oid)
  }

  /** What a recheck from `t` to `u` leaves and answers. */
  predicate RecheckEnds(
    p: Policy, w: World, t: nat, pulls: seq<Pull>, number: int, oid: Oid, u: nat, after: seq<Pull>, r: Option<PullRequestState>) {
    && t <= u && after == At(w, t, pulls, u)
    && r == if Rechecks(p, w, t, pulls, number, oid) then Some(w.answer(t).pull) else None
  }

  /** What creating and confirming from `t` to `u` leaves and answers. */
  predicate OpenEnds(
    p: Policy, w: World, t: nat, pulls: seq<Pull>, oid: Oid, body: string, u: nat, after: seq<Pull>, r: Option<PullRequestState>) {
    && Follows(p, w, t, pulls, body, u, after)
    && r == if IsConfirmed(p, w, t, pulls, oid, body) then Some(w.answer(t + 14).pull) else None
  }

  lemma {:induction false} OpenFails(p: Policy, w: World, t: nat, pulls: seq<Pull>, oid: Oid, body: string, u: nat, after: seq<Pull>)
    requires CreateEnds(p, w, t, pulls, body, u, after, None)
    ensures OpenEnds(p, w, t, pulls, oid, body, u, after, None)
  {
  }

  lemma {:induction false} OpenComposes(
    p: Policy, w: World, t: nat, pulls: seq<Pull>, oid: Oid, body: string, u: nat, made: seq<Pull>, number: int,
    v: nat, after: seq<Pull>, r: Option<PullRequestState>)
    requires CreateEnds(p, w, t, pulls, body, u, made, Some(number)) && RecheckEnds(p, w, u, made, number, oid, v, after, r)
    ensures OpenEnds(p, w, t, pulls, oid, body, v, after, r)
  {
    FollowingComposes(p, w, t, pulls, body, u, made, v);
  }

  /** The loop over the final listing. */
  method CheckAll(p: Policy, claims: seq<PullRequestState>, number: int, oid: Oid) returns (ok: bool)
    ensures ok <==> AreAll(p, Some(claims), number, oid)
  {
    var found := false;
    for i := 0 to |claims|
      invariant forall k | 0 <= k < i :: claims[k].number == number && MatchesPr(p, claims[k], oid)
      invariant found <==> i > 0
    {
      if claims[i].number != number || !MatchesPr(p, claims[i], oid) { return false; }
      found := true;
    }
    return found;
  }

  datatype Opened = Adopted(pr: PullRequestState) | Created(pr: PullRequestState)

  /** What a call that starts at `t` answers. */
  function CallAnswers(
    p: Policy, confirmed: Oid, admits: string -> bool, w: World, t: nat, pulls: seq<Pull>, oid: Oid, body: string): Result<Opened, ()> {
    var found := Discovered(p, admits, w, t, pulls, oid, body);
    if IsOurs(p, admits, found, oid) then Ok(Adopted(found.value[0]))
    else if MayCreate(p, confirmed, found, oid) && IsConfirmed(p, w, t + 5, At(w, t, pulls, t + 5), oid, body)
    then Ok(Created(w.answer(t + 19).pull))
    else Err(())
  }

  lemma {:induction false} CallRefuses(p: Policy, confirmed: Oid, admits: string -> bool, w: World, t: nat, pulls: seq<Pull>, oid: Oid, body: string)
    requires (p.mode != ResolveIssue && p.mode != Contribute) || !admits(body)
    ensures CallAnswers(p, confirmed, admits, w, t, pulls, oid, body) == Err(())
  {
  }

  /** A call that only discovers creates nothing, and what it discovers decides. */
  lemma {:induction false} DiscoveryCounts(
    p: Policy, confirmed: Oid, admits: string -> bool, w: World, t: nat, pulls: seq<Pull>, oid: Oid, body: string, u: nat)
    requires IsLawful(w) && BrokerPullsPinned(p, pulls)
    ensures BrokerPullsPinned(p, At(w, t, pulls, u)) && BrokerCount(At(w, t, pulls, u)) == BrokerCount(pulls)
    ensures CreatesAtMostOnce(p, pulls, At(w, t, pulls, u))
    ensures var found := Discovered(p, admits, w, t, pulls, oid, body);
            var r := CallAnswers(p, confirmed, admits, w, t, pulls, oid, body);
            && (IsOurs(p, admits, found, oid) ==> r == Ok(Adopted(found.value[0])))
            && (!IsOurs(p, admits, found, oid) && !MayCreate(p, confirmed, found, oid) ==> r == Err(()))
  {
    AtCounts(p, w, t, pulls, u);
  }

  /** A call that may create. */
  lemma {:induction false} CallOpens(
    p: Policy, confirmed: Oid, admits: string -> bool, w: World, t: nat, pulls: seq<Pull>, oid: Oid, body: string,
    u: nat, after: seq<Pull>, created: Option<PullRequestState>)
    requires IsLawful(w) && BrokerPullsPinned(p, pulls)
    requires MayCreate(p, confirmed, Discovered(p, admits, w, t, pulls, oid, body), oid)
    requires OpenEnds(p, w, t + 5, At(w, t, pulls, t + 5), oid, body, u, after, created)
    ensures BrokerCount(pulls) == 0 && BrokerPullsPinned(p, after) && CreatesAtMostOnce(p, pulls, after)
    ensures CallAnswers(p, confirmed, admits, w, t, pulls, oid, body) == if created.None? then Err(()) else Ok(Created(created.value))
  {
    DiscoveredNone(p, admits, w, t, pulls, oid, body);
    AtCounts(p, w, t, pulls, t + 5);
    FollowingCounts(p, w, t + 5, At(w, t, pulls, t + 5), body, u, after);
  }

  /** One broker process of a run: its engine and its forge adapter. `admits` is
      the body contract: linkage and, when a set is pinned, criterion evidence. */
  class Broker {
    const engine: PolicyEngine
    const adapter: ForgeAdapter
    const admits: string -> bool

    constructor (engine: PolicyEngine, adapter: ForgeAdapter, admits: string -> bool)
      ensures this.engine == engine && this.adapter == adapter && this.admits == admits
    {
      this.engine := engine;
      this.adapter := adapter;
      this.admits := admits;
    }

    ghost predicate Valid()
      reads this, adapter.forge
    {
      adapter.policy == engine.policy && IsLawful(adapter.forge.world) && BrokerPullsPinned(engine.policy, adapter.forge.pulls)
    }

    /** CreatePullRequest. A body outside the contract touches nothing. A forge
        write needs trusted evidence for the head, and happens at most once over
        all brokers; where one was made before, the call adopts or fails. */
    method CreatePullRequest(oid: Oid, body: string) returns (r: Result<Opened, ()>)
      requires Valid()
      modifies adapter`created, adapter.forge
      ensures Valid() && CreatesAtMostOnce(engine.policy, old(adapter.forge.pulls), adapter.forge.pulls)
      ensures !admits(body) || engine.policy.mode !in {ResolveIssue, Contribute} ==>
                r.Err? && adapter.forge.tick == old(adapter.forge.tick) && adapter.forge.pulls == old(adapter.forge.pulls)
      ensures r == CallAnswers(engine.policy, engine.confirmed, admits, adapter.forge.world, old(adapter.forge.tick), old(adapter.forge.pulls), oid, body)
      ensures BrokerCount(adapter.forge.pulls) > BrokerCount(old(adapter.forge.pulls)) ==>
                && (engine.confirmed == oid || oid == engine.policy.workAnchorOid)
                && Discovered(engine.policy, admits, adapter.forge.world, old(adapter.forge.tick), old(adapter.forge.pulls), oid, body) == Some([])
      ensures BrokerCount(old(adapter.forge.pulls)) > 0 ==> BrokerCount(adapter.forge.pulls) == BrokerCount(old(adapter.forge.pulls))
                                                            && (r.Ok? ==> r.value.Adopted?)
    {
      var p := engine.policy;
      ghost var t, start, w := adapter.forge.tick, adapter.forge.pulls, adapter.forge.world;
      if (p.mode != ResolveIssue && p.mode != Contribute) || !admits(body) {
        CallRefuses(p, engine.confirmed, admits, w, t, start, oid, body);
        return Err(());
      }
      var existing := Discover(oid, body);
      DiscoveryCounts(p, engine.confirmed, admits, w, t, start, oid, body, adapter.forge.tick);
      if existing.None? || |existing.value| > 1 { return Err(()); }
      if |existing.value| == 1 {
        var pr := existing.value[0];
        if !MatchesPr(p, pr, oid) || !admits(pr.body) { return Err(()); }
        return Ok(Adopted(pr));
      }
      if engine.confirmed != oid && oid != p.workAnchorOid { return Err(()); }
      var created := Open(oid, body);
      r := if created.None? then Err(()) else Ok(Created(created.value));
      CallOpens(p, engine.confirmed, admits, w, t, start, oid, body, adapter.forge.tick, adapter.forge.pulls, created);
    }

    /** The head's pull requests, once the given commit is its live tip. */
    method Discover(oid: Oid, body: string) returns (found: Option<seq<PullRequestState>>)
      requires adapter.policy == engine.policy && engine.policy.mode in {ResolveIssue, Contribute} && admits(body)
      modifies adapter.forge
      ensures old(adapter.forge.tick) <= adapter.forge.tick
      ensures adapter.forge.pulls == At(adapter.forge.world, old(adapter.forge.tick), old(adapter.forge.pulls), adapter.forge.tick)
      ensures found == Discovered(engine.policy, admits, adapter.forge.world, old(adapter.forge.tick), old(adapter.forge.pulls), oid, body)
      ensures found.Some? ==> adapter.forge.tick == old(adapter.forge.tick) + 5
    {
      var forge := adapter.forge;
      ghost var t, start := forge.tick, forge.pulls;
      var tip := LiveTip(oid);
      if !tip { return None; }
      found := adapter.FindPullRequest();
      AtComposes(forge.world, t, start, t + 2, forge.tick);
    }

    /** Create, and confirm what was created. */
    method Open(oid: Oid, body: string) returns (r: Option<PullRequestState>)
      requires adapter.policy == engine.policy && engine.policy.mode in {ResolveIssue, Contribute}
      modifies adapter`created, adapter.forge
      ensures OpenEnds(engine.policy, adapter.forge.world, old(adapter.forge.tick), old(adapter.forge.pulls), oid, body,
                       adapter.forge.tick, adapter.forge.pulls, r)
    {
      var p, forge := engine.policy, adapter.forge;
      ghost var t, start := forge.tick, forge.pulls;
      var number := adapter.CreatePullRequest(body);
      if number.None? {
        OpenFails(p, forge.world, t, start, oid, body, forge.tick, forge.pulls);
        return None;
      }
      ghost var u, made := forge.tick, forge.pulls;
      r := Recheck(number.value, oid);
      OpenComposes(p, forge.world, t, start, oid, body, u, made, number.value, forge.tick, forge.pulls, r);
    }

    /** The base and work checks, with the given commit as the exact live head. */
    method LiveTip(oid: Oid) returns (ok: bool)
      modifies adapter.forge
      ensures old(adapter.forge.tick) <= adapter.forge.tick
      ensures adapter.forge.pulls == At(adapter.forge.world, old(adapter.forge.tick), old(adapter.forge.pulls), adapter.forge.tick)
      ensures ok <==> SeesTip(engine.policy, adapter.forge.world, old(adapter.forge.tick), oid)
      ensures ok ==> adapter.forge.tick == old(adapter.forge.tick) + 2
    {
      var forge := adapter.forge;
      ghost var t, start := forge.tick, forge.pulls;
      var base := forge.ReadBase();
      if base.None? || !BaseOk(engine.policy, base.value) { return false; }
      var work := forge.ReadWork();
      assert forge.pulls == At(forge.world, t, start, t + 2);
      if work.None? || !DestinationOk(engine.policy, work.value) { return false; }
      return work.value.present && oid != "" && work.value.oid == oid;
    }

    /** After a create: read the result back, observe base and work again, and
        require that the complete listing holds this pull request and no other. */
    method Recheck(number: int, oid: Oid) returns (r: Option<PullRequestState>)
      requires adapter.policy == engine.policy
      modifies adapter.forge
      ensures if adapter.MayRead(number)
              then RecheckEnds(engine.policy, adapter.forge.world, old(adapter.forge.tick), old(adapter.forge.pulls), number, oid,
                               adapter.forge.tick, adapter.forge.pulls, r)
              else r.None? && adapter.forge.tick == old(adapter.forge.tick) && adapter.forge.pulls == old(adapter.forge.pulls)
    {
      var forge := adapter.forge;
      ghost var t, start := forge.tick, forge.pulls;
      var created := adapter.PullRequest(number);
      if created.None? { return None; }
      var tip := LiveTip(oid);
      AtComposes(forge.world, t, start, t + 1, forge.tick);
      if !tip || !MatchesPr(engine.policy, created.value, oid) { return None; }
      var pulls := adapter.FindPullRequest();
      AtComposes(forge.world, t, start, t + 3, forge.tick);
      if pulls.None? { return None; }
      var sole := CheckAll(engine.policy, pulls.value, number, oid);
      return if sole then created else None;
    }

    /** A new process: no confirmed tip, no registered pull request. */
    method Restart()
      modifies engine`confirmed, adapter`created
      ensures engine.confirmed == "" && adapter.created == {}
    {
      engine.Restart();
      adapter.created := {};
    }
  }

  // ---- what an answer of the broker rests on ----

  /** A call gets as far as the head's pull requests exactly when the body is
      within the contract of a mode that opens pull requests, the base read shows
      the pinned base, the work read the given commit on the pinned, writable,
      unprotected work ref, no call fails, and every claim on the head is complete. */
  lemma {:induction false} DiscoversExactly(p: Policy, admits: string -> bool, w: World, t: nat, pulls: seq<Pull>, oid: Oid, body: string)
    ensures Discovered(p, admits, w, t, pulls, oid, body).Some? <==>
            && (p.mode == ResolveIssue || p.mode == Contribute) && admits(body)
            && (forall k: nat | t <= k < t + 5 :: !w.answer(k).fails)
            && var base, work := w.answer(t).base, w.answer(t + 1).work;
            && base.repo == p.baseRepo && base.ref == p.baseRef && base.present && base.oid != ""
            && work.repo == p.workRepo && work.ref == p.workRef && work.protectionKnown && work.writeKnown
            && !work.isDefault && !work.isProtected && work.writable && work.present && work.oid == oid != ""
            && var found := At(w, t, pulls, t + 5);
               forall i | 0 <= i < |found| && ClaimsHead(p, found[i].state) ::
                 found[i].state.number > 0 && found[i].state.baseRef != "" && found[i].state.headOid != ""
  {
    var found := At(w, t, pulls, t + 5);
    AtComposes(w, t, pulls, t + 2, t + 5);
    assert !w.answer(t).fails && !w.answer(t + 1).fails && NoneFails(w, t + 2, 3) <==> NoneFails(w, t, 5);
    forall i | 0 <= i < |found| && ClaimsHead(p, found[i].state)
      ensures found[i].state in Claims(p, found)
    {
      ClaimsExactly(p, found, found[i].state);
    }
    forall k | 0 <= k < |Claims(p, found)|
      ensures exists i | 0 <= i < |found| :: ClaimsHead(p, found[i].state) && found[i].state == Claims(p, found)[k]
    {
      ClaimsExactly(p, found, Claims(p, found)[k]);
    }
  }

  /** ... and what it then discovers are the claims on the pinned head. */
  lemma {:induction false} DiscoveredAreClaims(p: Policy, admits: string -> bool, w: World, t: nat, pulls: seq<Pull>, oid: Oid, body: string)
    requires Discovered(p, admits, w, t, pulls, oid, body).Some?
    ensures Discovered(p, admits, w, t, pulls, oid, body).value == Claims(p, At(w, t, pulls, t + 5))
  {
    AtComposes(w, t, pulls, t + 2, t + 5);
  }

  /** The listing holds one claim exactly when one index of the list claims the
      pinned base repository, head repository and head ref. */
  lemma {:induction false} SoleClaimExactly(p: Policy, pulls: seq<Pull>, pr: PullRequestState)
    ensures Claims(p, pulls) == [pr] <==> exists k: nat :: IsSoleClaim(p, pulls, k) && pulls[k].state == pr
  {
    ClaimsAreCounted(p, pulls);
    var claiming := set i | 0 <= i < |pulls| && ClaimsHead(p, pulls[i].state);
    if Claims(p, pulls) == [pr] {
      ClaimsExactly(p, pulls, pr);
      var k: nat :| k < |pulls| && pulls[k].state == pr && ClaimsHead(p, pr);
      assert k in claiming && |claiming - {k}| == 0;
      assert forall i | 0 <= i < |pulls| && i != k :: ClaimsHead(p, pulls[i].state) ==> i in claiming - {k};
      assert IsSoleClaim(p, pulls, k);
    }
    if k: nat :| IsSoleClaim(p, pulls, k) && pulls[k].state == pr {
      assert claiming == {k};
      ClaimsExactly(p, pulls, pr);
    }
  }

  predicate IsSoleClaim(p: Policy, pulls: seq<Pull>, k: nat) {
    && k < |pulls| && pulls[k].state.baseRepo == p.baseRepo && pulls[k].state.headRepo == p.workRepo && pulls[k].state.headRef == p.workRef
    && forall i | 0 <= i < |pulls| && i != k ::
         pulls[i].state.baseRepo != p.baseRepo || pulls[i].state.headRepo != p.workRepo || pulls[i].state.headRef != p.workRef
  }

  /** An adopted pull request is open under the full pinned identity, with the
      given commit as its head and a body within the contract; nothing else stands
      between the sole claim and its adoption. */
  lemma {:induction false} OursExactly(p: Policy, admits: string -> bool, found: seq<PullRequestState>, oid: Oid)
    ensures IsOurs(p, admits, Some(found), oid) <==>
            && |found| == 1 && found[0].number > 0 && found[0].open && found[0].baseRepo == p.baseRepo && found[0].baseRef == p.baseRef
            && found[0].headRepo == p.workRepo && found[0].headRef == p.workRef && found[0].headOid == oid && admits(found[0].body)
  {
  }

  /** A created pull request was read back open under the full pinned identity with
      the given commit as its head, while that commit was still the live head of the
      pinned work ref and the base was there, and every claim listed afterwards is
      this pull request. */
  lemma {:induction false} ConfirmedMeansLive(p: Policy, w: World, t: nat, pulls: seq<Pull>, oid: Oid, body: string)
    requires IsConfirmed(p, w, t, pulls, oid, body)
    ensures var made, pr := w.answer(t + 7).pull, w.answer(t + 14).pull;
            && made.number > 0 && made.baseRepo == p.baseRepo && made.baseRef == p.baseRef
            && made.headRepo == p.workRepo && made.headRef == p.workRef && made.headOid != ""
            && w.answer(t + 8).pull.number == made.number && ClaimsHead(p, w.answer(t + 8).pull)
            && pr.number > 0 && pr.open && pr.baseRepo == p.baseRepo && pr.baseRef == p.baseRef
            && pr.headRepo == p.workRepo && pr.headRef == p.workRef && pr.headOid == oid
    ensures (forall k: nat | t <= k < t + 20 :: !w.answer(k).fails) && !w.answer(t + 7).answerLost
    ensures Claims(p, At(w, t, pulls, t + 7)) == []
    ensures var listed := At(w, t + 8, Made(p, w, t, pulls, body), t + 14);
            exists k: nat :: IsSoleClaim(p, listed, k) && listed[k].state.number == w.answer(t + 7).pull.number
    ensures var base, work := w.answer(t + 15).base, w.answer(t + 16).work;
            && base.repo == p.baseRepo && base.ref == p.baseRef && base.present
            && work.repo == p.workRepo && work.ref == p.workRef && work.protectionKnown && work.writeKnown
            && !work.isDefault && !work.isProtected && work.writable && work.present && work.oid == oid != ""
    ensures var end := At(w, t + 8, Made(p, w, t, pulls, body), t + 20);
            && (exists i | 0 <= i < |end| :: ClaimsHead(p, end[i].state))
            && forall i | 0 <= i < |end| && ClaimsHead(p, end[i].state) ::
                 var s := end[i].state;
                 s.number == w.answer(t + 7).pull.number && s.open && s.baseRef == p.baseRef && s.headOid == oid
  {
    var made := Made(p, w, t, pulls, body);
    var end := At(w, t + 8, made, t + 20);
    AtComposes(w, t + 8, made, t + 14, t + 17);
    AtComposes(w, t + 8, made, t + 17, t + 20);
    AllAreThis(p, end, w.answer(t + 7).pull.number, oid);
    NoCallFailed(p, w, t, pulls, oid, body);
    AtComposes(w, t, pulls, t + 4, t + 7);
    SoleReadsBack(p, w, t + 8, made, w.answer(t + 7).pull.number);
  }

  lemma {:induction false} NoCallFailed(p: Policy, w: World, t: nat, pulls: seq<Pull>, oid: Oid, body: string)
    requires IsConfirmed(p, w, t, pulls, oid, body)
    ensures forall k: nat | t <= k < t + 20 :: !w.answer(k).fails
  {
    assert NoneFails(w, t, 4) && NoneFails(w, t + 4, 3) && NoneFails(w, t + 9, 2) && NoneFails(w, t + 11, 3) && NoneFails(w, t + 17, 3);
    assert !w.answer(t + 7).fails && !w.answer(t + 8).fails && !w.answer(t + 14).fails;
    assert !w.answer(t + 15).fails && !w.answer(t + 16).fails;
  }

  lemma {:induction false} SoleReadsBack(p: Policy, w: World, t: nat, pulls: seq<Pull>, n: int)
    requires ReadsBack(p, w, t, pulls, n)
    ensures var listed := At(w, t, pulls, t + 6); exists k: nat :: IsSoleClaim(p, listed, k) && listed[k].state.number == n
  {
    AtComposes(w, t, pulls, t + 3, t + 6);
    SoleClaimExactly(p, At(w, t, pulls, t + 6), Claims(p, At(w, t, pulls, t + 6))[0]);
  }

  lemma {:induction false} AllAreThis(p: Policy, pulls: seq<Pull>, number: int, oid: Oid)
    requires AreAll(p, Some(Claims(p, pulls)), number, oid)
    ensures exists i | 0 <= i < |pulls| :: ClaimsHead(p, pulls[i].state)
    ensures forall i | 0 <= i < |pulls| && ClaimsHead(p, pulls[i].state) ::
              var s := pulls[i].state; s.number == number && s.open && s.baseRef == p.baseRef && s.headOid == oid
  {
    ClaimsExactly(p, pulls, Claims(p, pulls)[0]);
    forall i | 0 <= i < |pulls| && ClaimsHead(p, pulls[i].state)
      ensures var s := pulls[i].state; s.number == number && s.open && s.baseRef == p.baseRef && s.headOid == oid
    {
      ClaimsExactly(p, pulls, pulls[i].state);
    }
  }

  /** A create call that creates puts one record on the forge: open, of the pinned
      repositories and refs, with the given body. */
  lemma {:induction false} CreatedUnderThePin(p: Policy, pulls: seq<Pull>, h: Happening, body: string)
    requires !h.fails || h.answerLost
    ensures var after := AfterCreate(p, pulls, h, body);
            && |after| == |pulls| + 1 && after[..|pulls|] == pulls && after[|pulls|].byBroker
            && var s := after[|pulls|].state;
               && s.open && s.baseRepo == p.baseRepo && s.baseRef == p.baseRef
               && s.headRepo == p.workRepo && s.headRef == p.workRef && s.body == body
  {
  }

  // ---- on a forge that cooperates the pull request is opened ----

  /** Every call is answered truthfully, the given commit is the live head, and a
      create makes the pull request `n`. */
  predicate IsCooperative(p: Policy, h: Happening, oid: Oid, n: int) {
    && !h.fails && !h.answerLost
    && h.base.repo == p.baseRepo && h.base.ref == p.baseRef && h.base.present && h.base.oid != ""
    && h.work.repo == p.workRepo && h.work.ref == p.workRef && h.work.present && h.work.oid == oid
    && h.work.protectionKnown && h.work.writeKnown && !h.work.isDefault && !h.work.isProtected && h.work.writable
    && h.pull.number == n && h.pull.open && h.pull.headOid == oid && h.pull.baseRepo == p.baseRepo && h.pull.baseRef == p.baseRef
    && h.pull.headRepo == p.workRepo && h.pull.headRef == p.workRef
  }

  ghost predicate Cooperates(p: Policy, w: World, t: nat, oid: Oid, n: int) {
    n > 0 && oid != "" && p.baseRef != "" && Undisturbed(w, t) && forall k: nat | k >= t :: IsCooperative(p, w.answer(k), oid, n)
  }

  lemma {:induction false} CooperativeDiscovery(p: Policy, admits: string -> bool, w: World, t: nat, pulls: seq<Pull>, oid: Oid, body: string, n: int)
    requires Cooperates(p, w, t, oid, n) && p.mode in {ResolveIssue, Contribute} && admits(body) && AreComplete(Claims(p, pulls))
    ensures Discovered(p, admits, w, t, pulls, oid, body) == Some(Claims(p, pulls))
  {
    assert IsCooperative(p, w.answer(t), oid, n) && IsCooperative(p, w.answer(t + 1), oid, n);
    CooperativeListing(p, w, t, t + 2, pulls, oid, n);
    UndisturbedStays(w, t, pulls, t + 2);
  }

  lemma {:induction false} CooperativeListing(p: Policy, w: World, from: nat, t: nat, pulls: seq<Pull>, oid: Oid, n: int)
    requires Cooperates(p, w, from, oid, n) && from <= t && AreComplete(Claims(p, pulls))
    ensures Listing(p, w, t, pulls) == Some(Claims(p, pulls))
  {
    UndisturbedStays(w, t, pulls, t + 3);
  }

  /** The list with the pull request that the brokers opened. */
  function With(pulls: seq<Pull>, s: PullRequestState): seq<Pull> {
    pulls + [Pull(s, true)]
  }

  lemma {:induction false} CooperativeCreate(p: Policy, w: World, t: nat, pulls: seq<Pull>, oid: Oid, body: string, n: int)
    requires Cooperates(p, w, t, oid, n) && Claims(p, pulls) == []
    ensures Made(p, w, t, pulls, body) == With(pulls, NewPull(p, n, oid, body))
    ensures Claims(p, With(pulls, NewPull(p, n, oid, body))) == [NewPull(p, n, oid, body)]
    ensures AreComplete([NewPull(p, n, oid, body)])
  {
    UndisturbedStays(w, t, pulls, t + 8);
    assert IsCooperative(p, w.answer(t + 7), oid, n);
    var made := With(pulls, NewPull(p, n, oid, body));
    assert made[..|made| - 1] == pulls;
  }

  lemma {:induction false} CooperativeVerification(p: Policy, w: World, t: nat, pulls: seq<Pull>, oid: Oid, body: string, n: int)
    requires Cooperates(p, w, t, oid, n) && Claims(p, pulls) == []
    ensures IsVerified(p, w, t, pulls, body) && w.answer(t + 7).pull.number == n
  {
    var made := With(pulls, NewPull(p, n, oid, body));
    UndisturbedStays(w, t, pulls, t + 4);
    CooperativeListing(p, w, t, t + 4, pulls, oid, n);
    CooperativeCreate(p, w, t, pulls, oid, body, n);
    UndisturbedStays(w, t + 8, made, t + 11);
    CooperativeListing(p, w, t, t + 11, made, oid, n);
    assert IsCooperative(p, w.answer(t + 7), oid, n) && IsCooperative(p, w.answer(t + 8), oid, n);
  }

  lemma {:induction false} CooperativeRecheck(p: Policy, w: World, from: nat, t: nat, pulls: seq<Pull>, oid: Oid, body: string, n: int)
    requires Cooperates(p, w, from, oid, n) && from <= t && Claims(p, pulls) == [NewPull(p, n, oid, body)]
    ensures Rechecks(p, w, t, pulls, n, oid)
  {
    UndisturbedStays(w, t, pulls, t + 3);
    CooperativeListing(p, w, from, t + 3, pulls, oid, n);
    assert IsCooperative(p, w.answer(t), oid, n) && IsCooperative(p, w.answer(t + 1), oid, n) && IsCooperative(p, w.answer(t + 2), oid, n);
  }

  /** Where nothing claims the head yet, a create is confirmed. */
  lemma {:induction false} CooperativeForgeOpens(p: Policy, w: World, t: nat, pulls: seq<Pull>, oid: Oid, body: string, n: int)
    requires Cooperates(p, w, t, oid, n) && Claims(p, pulls) == []
    ensures IsConfirmed(p, w, t, pulls, oid, body)
  {
    var made := With(pulls, NewPull(p, n, oid, body));
    CooperativeVerification(p, w, t, pulls, oid, body, n);
    CooperativeCreate(p, w, t, pulls, oid, body, n);
    UndisturbedStays(w, t + 8, made, t + 14);
    CooperativeRecheck(p, w, t, t + 14, made, oid, body, n);
  }

  /** On such a forge a call for a confirmed head that nothing claims yet opens the
      pull request ... */
  lemma {:induction false} CooperativeCallOpens(p: Policy, admits: string -> bool, w: World, t: nat, pulls: seq<Pull>, oid: Oid, body: string, n: int)
    requires Cooperates(p, w, t, oid, n) && p.mode in {ResolveIssue, Contribute} && admits(body) && Claims(p, pulls) == []
    ensures var r := CallAnswers(p, oid, admits, w, t, pulls, oid, body);
            r.Ok? && r.value.Created? && r.value.pr.(body := body) == NewPull(p, n, oid, body)
  {
    CooperativeDiscovery(p, admits, w, t, pulls, oid, body, n);
    UndisturbedStays(w, t, pulls, t + 5);
    CooperativeForgeOpens(p, w, t + 5, pulls, oid, body, n);
    assert IsCooperative(p, w.answer(t + 19), oid, n);
  }

  /** ... and any later call, also of a new process, adopts it. */
  lemma {:induction false} CooperativeCallAdopts(
    p: Policy, confirmed: Oid, admits: string -> bool, w: World, t: nat, pulls: seq<Pull>, oid: Oid, body: string, n: int, later: nat)
    requires Cooperates(p, w, t, oid, n) && p.mode in {ResolveIssue, Contribute} && admits(body) && Claims(p, pulls) == [] && t <= later
    ensures CallAnswers(p, confirmed, admits, w, later, Made(p, w, t, pulls, body), oid, body) == Ok(Adopted(NewPull(p, n, oid, body)))
  {
    CooperativeCreate(p, w, t, pulls, oid, body, n);
    CooperativeDiscovery(p, admits, w, later, Made(p, w, t, pulls, body), oid, body, n);
  }

  datatype Call =
    | Publish(req: PublicationRequest, anc: Ancestry, seen: Seen, pushFailed: bool)
    | Create(oid: Oid, body: string)
    | Restart

  /** Create once: over any number of calls and restarts, whatever others do to
      the forge in between and however calls fail, the brokers of a run create
      at most one pull request. A crash is a failed call followed by a restart. */
  method Serve(broker: Broker, calls: seq<Call>)
    requires broker.Valid() && BrokerCount(broker.adapter.forge.pulls) == 0
    modifies broker.engine`confirmed, broker.adapter`created, broker.adapter.forge
    ensures broker.Valid() && BrokerCount(broker.adapter.forge.pulls) <= 1
  {
    for i := 0 to |calls|
      invariant broker.Valid() && BrokerCount(broker.adapter.forge.pulls) <= 1
    {
      match calls[i] {
        case Publish(req, anc, seen, pushFailed) =>
          var r, pushed := broker.engine.Publish(req, anc, seen, pushFailed);
        case Create(oid, body) =>
          var r := broker.CreatePullRequest(oid, body);
        case Restart =>
          broker.Restart();
      }
    }
  }
}
