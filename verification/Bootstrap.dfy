/** The bootstrap reconciler: its passes over a cluster that others change at any
    moment, and its collision bookkeeping (internal/bootstrap/reconciler.go:120-263). */
module Bootstrap {
  import opened Options
  import opened BootstrapConfig

  /** What the API server stores of a written spec; None when it rejects the write. */
  type Server = Spec -> Option<Spec>

  /** The server stores the spec as it is. */
  predicate KeepsAsIs(server: Server, spec: Spec) {
    server(spec) == Some(spec)
  }

  // ---- collision events ----

  datatype Event = Blocked(name: string) | StillBlocked(name: string) | Resolved(name: string)

  /** What was reported about one name: true for blocked, false for resolved. */
  function History(log: seq<Event>, name: string): seq<bool> {
    if log == [] then []
    else
      var last := log[|log| - 1];
      History(log[..|log| - 1], name)
      + if last == Blocked(name) then [true] else if last == Resolved(name) then [false] else []
  }

  predicate Alternates(h: seq<bool>) {
    forall i | 0 <= i < |h| :: h[i] == (i % 2 == 0)
  }

  /** For every name the reports alternate, starting with blocked, and the names
      held as colliding are those whose last report is blocked. */
  ghost predicate Consistent(log: seq<Event>, colliding: set<string>) {
    forall name: string :: IsConsistent(History(log, name), name in colliding)
  }

  predicate IsConsistent(h: seq<bool>, colliding: bool) {
    Alternates(h) && (colliding <==> |h| % 2 == 1)
  }

  lemma {:induction false} Appended(log: seq<Event>, e: Event, name: string)
    ensures History(log + [e], name)
            == History(log, name) + if e == Blocked(name) then [true] else if e == Resolved(name) then [false] else []
  {
    assert (log + [e])[..|log|] == log;
  }

  lemma {:induction false} ConsistentOn(h: seq<bool>, colliding: bool)
    requires IsConsistent(h, colliding)
    ensures IsConsistent(h + [!colliding], !colliding)
  {
  }

  function CollidingAfter(colliding: set<string>, e: Event): set<string> {
    match e
    case Blocked(name) => colliding + {name}
    case StillBlocked(_) => colliding
    case Resolved(name) => colliding - {name}
  }

  lemma {:induction false} ReportKeepsConsistent(log: seq<Event>, colliding: set<string>, e: Event)
    requires Consistent(log, colliding)
    requires e.Blocked? ==> e.name !in colliding
    requires e.Resolved? ==> e.name in colliding
    ensures Consistent(log + [e], CollidingAfter(colliding, e))
  {
    forall name: string
      ensures IsConsistent(History(log + [e], name), name in CollidingAfter(colliding, e))
    {
      assert IsConsistent(History(log, name), name in colliding);
      Appended(log, e, name);
      if e == Blocked(name) || e == Resolved(name) {
        ConsistentOn(History(log, name), name in colliding);
      } else {
        assert History(log + [e], name) == History(log, name);
      }
    }
  }

  lemma {:induction false} HistoryGrows(log: seq<Event>, more: seq<Event>, name: string)
    requires log <= more
    ensures History(log, name) <= History(more, name)
    decreases |more|
  {
    if |log| == |more| {
      assert log == more;
    } else {
      HistoryGrows(log, more[..|more| - 1], name);
    }
  }

  // ---- one profile ----

  /** A lane profile in the cluster: ours by its label, its spec and its version. */
  datatype Lane = Lane(managed: bool, spec: Spec, version: nat)

  type Lanes = map<string, Lane>

  /** How the calls for one profile fare; a write may land and its answer be lost. */
  datatype Fault = NoFault | ReadFails | WriteFails | AnswerLost

  /** What a profile meets: the cluster as others have left it before the read
      and before the write (None: untouched), and the fate of its calls. */
  datatype Visit = Visit(outside: Option<Lanes>, race: Option<Lanes>, fault: Fault)

  /** The cluster at the read and at the write. */
  datatype Sight = Sight(read: Lanes, write: Lanes)

  function SightOf(lanes: Lanes, v: Visit): Sight {
    var read := if v.outside.Some? then v.outside.value else lanes;
    Sight(read, if v.race.Some? then v.race.value else read)
  }

  predicate IsForeign(lanes: Lanes, name: string) {
    name in lanes && !lanes[name].managed
  }

  /** Nothing is to be written: the lane is somebody else's, or ours and as desired. */
  predicate IsSettled(lanes: Lanes, p: Profile) {
    p.name in lanes && (lanes[p.name].managed ==> lanes[p.name].spec == p.spec)
  }

  predicate Collides(s: Sight, p: Profile, fault: Fault) {
    !fault.ReadFails? && IsForeign(s.read, p.name)
  }

  predicate Requests(s: Sight, p: Profile, fault: Fault) {
    !fault.ReadFails? && !IsSettled(s.read, p)
  }

  /** The lane is still as it was read, so that a write is not refused as a lost race. */
  predicate IsUnraced(s: Sight, name: string) {
    (name in s.read <==> name in s.write) && (name in s.read ==> s.write[name] == s.read[name])
  }

  predicate Lands(server: Server, s: Sight, p: Profile, fault: Fault) {
    Requests(s, p, fault) && !fault.WriteFails? && IsUnraced(s, p.name) && server(p.spec).Some?
  }

  /** The error that is not a collision: a failed read, or a write that was needed
      and failed, was rejected, or met a lane that is gone. A create that finds the
      name taken and an update that finds the lane changed are absorbed. */
  predicate Errs(server: Server, s: Sight, p: Profile, fault: Fault) {
    || fault.ReadFails?
    || (Requests(s, p, fault)
        && (|| fault.WriteFails? || fault.AnswerLost?
            || (if p.name in s.read then p.name !in s.write || (IsUnraced(s, p.name) && server(p.spec).None?)
                else server(p.spec).None?)))
  }

  function Written(server: Server, s: Sight, p: Profile, fault: Fault): Lanes {
    if Lands(server, s, p, fault)
    then s.write[p.name := Lane(true, server(p.spec).value, if p.name in s.read then s.read[p.name].version + 1 else 0)]
    else s.write
  }

  /** Whatever others do and when, a write touches only its own name, and never a
      lane that is somebody else's at the read or at the write. */
  lemma {:induction false} ForeignIsNeverWritten(server: Server, s: Sight, p: Profile, fault: Fault)
    ensures var after := Written(server, s, p, fault);
            && (forall n: string | n in s.write && (n != p.name || !s.write[n].managed) :: n in after && after[n] == s.write[n])
            && (forall n: string | n in after && n != p.name :: n in s.write)
            && (IsForeign(s.read, p.name) ==> after == s.write)
            && (after != s.write ==> after[p.name].managed)
  {
  }

  /** What one profile does: its trouble, the cluster it leaves and the writes it
      requests, each on its exact condition. */
  predicate IsEnsured(server: Server, before: Lanes, p: Profile, v: Visit, trouble: Trouble, after: Lanes, requested: int) {
    var s := SightOf(before, v);
    && (trouble.Collision? <==> Collides(s, p, v.fault)) && (trouble.Other? <==> Errs(server, s, p, v.fault))
    && after == Written(server, s, p, v.fault) && requested == if Requests(s, p, v.fault) then 1 else 0
  }

  /** The cluster that others left behind before the write. */
  function LeftByOthers(before: Lanes, v: Visit): Lanes {
    match (v.race, v.outside)
    case (Some(lanes), _) => lanes
    case (None, Some(lanes)) => lanes
    case (None, None) => before
  }

  /** No trouble means that a write that was asked for was answered and the lane is
      there, and, unless others intervened between the read and the write, the
      lane is ours with the desired spec or what the server makes of it. */
  lemma {:induction false} FineMeansEnsured(server: Server, before: Lanes, p: Profile, v: Visit, trouble: Trouble, after: Lanes, requested: int)
    requires IsEnsured(server, before, p, v, trouble, after, requested) && trouble.Fine?
    ensures !v.fault.ReadFails? && (requested == 1 ==> v.fault.NoFault?)
    ensures v.race.None? || requested == 1 ==> p.name in after
    ensures v.race.None? ==>
            after[p.name].managed && (after[p.name].spec == p.spec || Some(after[p.name].spec) == server(p.spec))
  {
  }

  /** Trouble has a cause: a collision is a foreign lane, and nothing is asked for;
      any other error is a failed read, or a write that was asked for and failed, lost
      its answer, was rejected, or found that others removed the lane. */
  lemma {:induction false} TroubleHasACause(server: Server, before: Lanes, p: Profile, v: Visit, trouble: Trouble, after: Lanes, requested: int)
    requires IsEnsured(server, before, p, v, trouble, after, requested)
    ensures trouble.Collision? ==> requested == 0 && (v.race.None? ==> p.name in after && !after[p.name].managed)
    ensures trouble.Other? ==>
            || v.fault.ReadFails?
            || (requested == 1 && (!v.fault.NoFault? || server(p.spec).None? || (v.race.Some? && p.name !in after)))
  {
  }

  /** The cluster changes only by the write that was asked for: a lane of ours as the
      server stores it, created, or one version on from the lane that was read. */
  lemma {:induction false} OnlyTheWriteChanges(server: Server, before: Lanes, p: Profile, v: Visit, trouble: Trouble, after: Lanes, requested: int)
    requires IsEnsured(server, before, p, v, trouble, after, requested)
    ensures var left := LeftByOthers(before, v);
            || after == left
            || (&& requested == 1 && !v.fault.ReadFails? && !v.fault.WriteFails? && server(p.spec).Some?
                && after == left[p.name := Lane(true, server(p.spec).value, if p.name in left then left[p.name].version + 1 else 0)])
  {
  }

  // ---- a pass ----

  /** The cluster after the first i profiles of a pass. */
  function LanesAt(server: Server, lanes: Lanes, profiles: seq<Profile>, visits: nat -> Visit, i: nat): Lanes
    requires i <= |profiles|
  {
    if i == 0 then lanes
    else Written(server, SightOf(LanesAt(server, lanes, profiles, visits, i - 1), visits(i - 1)), profiles[i - 1], visits(i - 1).fault)
  }

  function SightAt(server: Server, lanes: Lanes, profiles: seq<Profile>, visits: nat -> Visit, i: nat): Sight
    requires i < |profiles|
  {
    SightOf(LanesAt(server, lanes, profiles, visits, i), visits(i))
  }

  predicate CollidesAt(server: Server, lanes: Lanes, profiles: seq<Profile>, visits: nat -> Visit, i: nat)
    requires i < |profiles|
  {
    Collides(SightAt(server, lanes, profiles, visits, i), profiles[i], visits(i).fault)
  }

  predicate ErrsAt(server: Server, lanes: Lanes, profiles: seq<Profile>, visits: nat -> Visit, i: nat)
    requires i < |profiles|
  {
    Errs(server, SightAt(server, lanes, profiles, visits, i), profiles[i], visits(i).fault)
  }

  /** The names that collided among the first n profiles, and those that erred otherwise. */
  function Collided(server: Server, lanes: Lanes, profiles: seq<Profile>, visits: nat -> Visit, n: nat): set<string>
    requires n <= |profiles|
  {
    if n == 0 then {}
    else Collided(server, lanes, profiles, visits, n - 1)
         + if CollidesAt(server, lanes, profiles, visits, n - 1) then {profiles[n - 1].name} else {}
  }

  function Erred(server: Server, lanes: Lanes, profiles: seq<Profile>, visits: nat -> Visit, n: nat): set<string>
    requires n <= |profiles|
  {
    if n == 0 then {}
    else Erred(server, lanes, profiles, visits, n - 1) + if ErrsAt(server, lanes, profiles, visits, n - 1) then {profiles[n - 1].name} else {}
  }

  function WritesRequested(server: Server, lanes: Lanes, profiles: seq<Profile>, visits: nat -> Visit, n: nat): nat
    requires n <= |profiles|
  {
    if n == 0 then 0
    else WritesRequested(server, lanes, profiles, visits, n - 1)
         + if Requests(SightAt(server, lanes, profiles, visits, n - 1), profiles[n - 1], visits(n - 1).fault) then 1 else 0
  }

  /** The names that stay colliding: this pass's collisions, and formerly
      colliding ones that erred otherwise. */
  function CollidingAfterPass(server: Server, colliding: set<string>, lanes: Lanes, profiles: seq<Profile>, visits: nat -> Visit): set<string> {
    Collided(server, lanes, profiles, visits, |profiles|) + colliding * Erred(server, lanes, profiles, visits, |profiles|)
  }

  function NameSet(profiles: seq<Profile>): set<string> {
    set i | 0 <= i < |profiles| :: profiles[i].name
  }

  datatype Trouble = Fine | Collision | Other

  datatype Failure = Failure(name: string, trouble: Trouble)

  function FailedNames(errors: seq<Failure>): set<string> {
    set i | 0 <= i < |errors| :: errors[i].name
  }

  class Reconciler {
    const server: Server
    var lanes: Lanes
    var colliding: set<string>
    var evaluated: set<string>
    var log: seq<Event>
    var writes: nat

    constructor (server: Server, lanes: Lanes)
      ensures this.server == server && this.lanes == lanes && colliding == {} && log == [] && Consistent(log, colliding)
    {
      this.server, this.lanes := server, lanes;
      colliding, evaluated, log, writes := {}, {}, [], 0;
    }

    method LogCollision(name: string)
      requires Consistent(log, colliding)
      modifies this`log, this`colliding
      ensures Consistent(log, colliding) && colliding == old(colliding) + {name} && old(log) <= log
    {
      var first := name !in colliding;
      var e := if first then Blocked(name) else StillBlocked(name);
      ReportKeepsConsistent(log, colliding, e);
      colliding := colliding + {name};
      log := log + [e];
    }

    method Ensure(p: Profile, v: Visit) returns (trouble: Trouble)
      requires Consistent(log, colliding)
      modifies this`lanes, this`log, this`colliding, this`writes
      ensures Consistent(log, colliding) && old(log) <= log
      ensures IsEnsured(server, old(lanes), p, v, trouble, lanes, writes - old(writes))
      ensures colliding == if trouble.Collision? then old(colliding) + {p.name} else old(colliding)
    {
      if v.outside.Some? {
        lanes := v.outside.value;
      }
      var read := lanes;
      if v.race.Some? {
        lanes := v.race.value;
      }
      if v.fault.ReadFails? {
        return Other;
      }
      if p.name !in read {
        trouble := Create(p, v.fault);
        return;
      }
      if !read[p.name].managed {
        LogCollision(p.name);
        return Collision;
      }
      if read[p.name].spec != p.spec {
        trouble := Update(p, read[p.name], v.fault);
        return;
      }
      return Fine;
    }

    /** The create: rejected before it is known whether the name is taken. */
    method Create(p: Profile, fault: Fault) returns (trouble: Trouble)
      requires !fault.ReadFails?
      modifies this`lanes, this`writes
      ensures writes == old(writes) + 1
      ensures !fault.WriteFails? && p.name !in old(lanes) && server(p.spec).Some? ==>
                lanes == old(lanes)[p.name := Lane(true, server(p.spec).value, 0)]
      ensures fault.WriteFails? || p.name in old(lanes) || server(p.spec).None? ==> lanes == old(lanes)
      ensures trouble == if fault.WriteFails? || fault.AnswerLost? || server(p.spec).None? then Other else Fine
    {
      writes := writes + 1;
      if fault.WriteFails? || server(p.spec).None? {
        return Other;
      }
      if p.name !in lanes {
        lanes := lanes[p.name := Lane(true, server(p.spec).value, 0)];
      }
      return if fault.AnswerLost? then Other else Fine;
    }

    /** The update carries the version that was read. */
    method Update(p: Profile, existing: Lane, fault: Fault) returns (trouble: Trouble)
      requires !fault.ReadFails?
      modifies this`lanes, this`writes
      ensures writes == old(writes) + 1
      ensures var unraced := p.name in old(lanes) && old(lanes)[p.name] == existing;
              && (!fault.WriteFails? && unraced && server(p.spec).Some? ==>
                    lanes == old(lanes)[p.name := Lane(true, server(p.spec).value, existing.version + 1)])
              && (fault.WriteFails? || !unraced || server(p.spec).None? ==> lanes == old(lanes))
              && trouble == if fault.WriteFails? || fault.AnswerLost? || p.name !in old(lanes) || (unraced && server(p.spec).None?)
                            then Other else Fine
    {
      writes := writes + 1;
      if fault.WriteFails? || p.name !in lanes {
        return Other;
      }
      if lanes[p.name] == existing {
        if server(p.spec).None? {
          return Other;
        }
        lanes := lanes[p.name := Lane(true, server(p.spec).value, existing.version + 1)];
      }
      return if fault.AnswerLost? then Other else Fine;
    }

    /** Reports every settled collision once and forgets it. */
    method SettleCollisions()
      requires Consistent(log, colliding)
      modifies this`log, this`colliding, this`evaluated
      ensures Consistent(log, colliding) && colliding == old(colliding) - old(evaluated) && evaluated == {} && old(log) <= log
    {
      var resolved := colliding * evaluated;
      while resolved != {}
        invariant Consistent(log, colliding) && resolved <= colliding <= old(colliding) && old(log) <= log
        invariant colliding - resolved == old(colliding) - old(evaluated)
        decreases |resolved|
      {
        var name :| name in resolved;
        ReportKeepsConsistent(log, colliding, Resolved(name));
        log := log + [Resolved(name)];
        colliding := colliding - {name};
        resolved := resolved - {name};
      }
      evaluated := {};
    }

    method EnsureAll(profiles: seq<Profile>, visits: nat -> Visit) returns (errors: seq<Failure>)
      requires Consistent(log, colliding)
      modifies this
      ensures Consistent(log, colliding) && old(log) <= log && evaluated == old(evaluated) - FailedNames(errors)
      ensures IsMidway(server, old(lanes), profiles, visits, |profiles|, lanes, writes - old(writes), old(colliding), colliding, FailedNames(errors))
    {
      errors := [];
      MidwayStart(server, lanes, profiles, visits, colliding);
      for i := 0 to |profiles|
        invariant Consistent(log, colliding) && old(log) <= log && evaluated == old(evaluated) - FailedNames(errors)
        invariant IsMidway(server, old(lanes), profiles, visits, i, lanes, writes - old(writes), old(colliding), colliding, FailedNames(errors))
      {
        ghost var before, count, held, failed := lanes, writes - old(writes), colliding, FailedNames(errors);
        var trouble;
        trouble, errors := EnsureNext(profiles[i], visits(i), errors, old(evaluated));
        MidwayStep(server, old(lanes), profiles, visits, i, before, count, old(colliding), held, failed,
                   trouble, lanes, writes - old(writes));
      }
    }

    /** One profile of the pass: an error is collected and the name not evaluated. */
    method EnsureNext(p: Profile, v: Visit, sofar: seq<Failure>, ghost all: set<string>) returns (trouble: Trouble, errors: seq<Failure>)
      requires Consistent(log, colliding) && evaluated == all - FailedNames(sofar)
      modifies this
      ensures Consistent(log, colliding) && old(log) <= log
      ensures IsEnsured(server, old(lanes), p, v, trouble, lanes, writes - old(writes))
      ensures colliding == if trouble.Collision? then old(colliding) + {p.name} else old(colliding)
      ensures FailedNames(errors) == if trouble.Fine? then FailedNames(sofar) else FailedNames(sofar) + {p.name}
      ensures evaluated == all - FailedNames(errors)
    {
      trouble := Ensure(p, v);
      if trouble.Fine? {
        return trouble, sofar;
      }
      FailedNamesAppend(sofar, Failure(p.name, trouble));
      evaluated := evaluated - {p.name};
      return trouble, sofar + [Failure(p.name, trouble)];
    }

    /** One pass; `report` is None when the provider fails. */
    method ReconcileAll(report: Option<seq<Profile>>, visits: nat -> Visit) returns (errors: seq<Failure>)
      requires Consistent(log, colliding)
      modifies this
      ensures Consistent(log, colliding) && old(log) <= log
      ensures report.None? ==> colliding == old(colliding) && log == old(log) && lanes == old(lanes) && writes == old(writes)
      ensures report.Some? ==>
                && lanes == LanesAt(server, old(lanes), report.value, visits, |report.value|)
                && writes == old(writes) + WritesRequested(server, old(lanes), report.value, visits, |report.value|)
                && colliding == CollidingAfterPass(server, old(colliding), old(lanes), report.value, visits)
                && FailedNames(errors) == Collided(server, old(lanes), report.value, visits, |report.value|)
                                          + Erred(server, old(lanes), report.value, visits, |report.value|)
    {
      if report.None? {
        return [];
      }
      evaluated := NameSet(report.value) + colliding;
      errors := EnsureAll(report.value, visits);
      NamesAreConfigured(server, old(lanes), report.value, visits, |report.value|);
      SettleCollisions();
    }

    /** The reconciler's life: passes on every tick, whatever the provider
        reports, whatever fails, and whatever others do in between. */
    method Run(reports: seq<Option<seq<Profile>>>, visits: (nat, nat) -> Visit)
      requires Consistent(log, colliding)
      modifies this
      ensures Consistent(log, colliding) && old(log) <= log
      ensures lanes == LifeLanes(server, old(lanes), reports, visits, |reports|)
      ensures colliding == LifeColliding(server, old(colliding), old(lanes), reports, visits, |reports|)
    {
      for t := 0 to |reports|
        invariant Consistent(log, colliding) && old(log) <= log
        invariant lanes == LifeLanes(server, old(lanes), reports, visits, t)
        invariant colliding == LifeColliding(server, old(colliding), old(lanes), reports, visits, t)
      {
        var errors := ReconcileAll(reports[t], (i: nat) => visits(t, i));
      }
    }

    /** Two ticks in a row that nobody disturbs: the second one requests no write
        exactly when the first found every profile settled or storable. */
    method PassTwice(profiles: seq<Profile>) returns (rewritten: nat)
      requires Consistent(log, colliding) && AreDistinct(Names(profiles))
      modifies this
      ensures rewritten == 0 <==>
              forall i | 0 <= i < |profiles| :: IsSettled(old(lanes), profiles[i]) || KeepsAsIs(server, profiles[i].spec)
    {
      var first := ReconcileAll(Some(profiles), UNDISTURBED);
      QuietPassSettlesExactly(server, old(lanes), profiles);
      var count := writes;
      ghost var settled := lanes;
      var second := ReconcileAll(Some(profiles), UNDISTURBED);
      NoRequestsExactly(server, settled, profiles, |profiles|);
      rewritten := writes - count;
    }
  }

  // ---- a life ----

  function LifeLanes(server: Server, lanes: Lanes, reports: seq<Option<seq<Profile>>>, visits: (nat, nat) -> Visit, t: nat): Lanes
    requires t <= |reports|
  {
    if t == 0 then lanes
    else
      var before := LifeLanes(server, lanes, reports, visits, t - 1);
      if reports[t - 1].None? then before
      else LanesAt(server, before, reports[t - 1].value, (i: nat) => visits(t - 1, i), |reports[t - 1].value|)
  }

  function LifeColliding(
    server: Server, colliding: set<string>, lanes: Lanes, reports: seq<Option<seq<Profile>>>, visits: (nat, nat) -> Visit, t: nat): set<string>
    requires t <= |reports|
  {
    if t == 0 then colliding
    else
      var before := LifeColliding(server, colliding, lanes, reports, visits, t - 1);
      if reports[t - 1].None? then before
      else CollidingAfterPass(server, before, LifeLanes(server, lanes, reports, visits, t - 1), reports[t - 1].value, (i: nat) => visits(t - 1, i))
  }

  /** In every pass of every life, at every profile: what the step leaves differs
      from what others left there at most by a lane of ours under that name. */
  lemma {:induction false} LifeWritesOnlyOwn(
    server: Server, lanes: Lanes, reports: seq<Option<seq<Profile>>>, visits: (nat, nat) -> Visit, t: nat, i: nat, name: string)
    requires t < |reports| && reports[t].Some? && i < |reports[t].value|
    ensures var before := LifeLanes(server, lanes, reports, visits, t);
            var pass := (k: nat) => visits(t, k);
            var met := SightAt(server, before, reports[t].value, pass, i);
            var after := LanesAt(server, before, reports[t].value, pass, i + 1);
            && (IsForeign(met.write, name) ==> name in after && after[name] == met.write[name])
            && (name != reports[t].value[i].name ==>
                  (name in after <==> name in met.write) && (name in after ==> after[name] == met.write[name]))
  {
    var before := LifeLanes(server, lanes, reports, visits, t);
    var pass := (k: nat) => visits(t, k);
    ForeignIsNeverWritten(server, SightAt(server, before, reports[t].value, pass, i), reports[t].value[i], visits(t, i).fault);
  }

  // ---- quiet passes ----

  const UNDISTURBED: nat -> Visit := (i: nat) => Visit(None, None, NoFault)

  /** A profile of another name leaves a lane alone. */
  lemma {:induction false} OthersLeaveIt(server: Server, lanes: Lanes, profiles: seq<Profile>, i: nat, j: nat, name: string)
    requires i <= j <= |profiles| && forall k | i <= k < j :: profiles[k].name != name
    ensures var a, b := LanesAt(server, lanes, profiles, UNDISTURBED, i), LanesAt(server, lanes, profiles, UNDISTURBED, j);
            (name in a <==> name in b) && (name in a ==> a[name] == b[name])
    decreases j - i
  {
    if i < j {
      OthersLeaveIt(server, lanes, profiles, i, j - 1, name);
      ForeignIsNeverWritten(server, SightAt(server, lanes, profiles, UNDISTURBED, j - 1), profiles[j - 1], NoFault);
    }
  }

  lemma {:induction false} QuietVisitSettlesExactly(server: Server, lanes: Lanes, p: Profile)
    ensures IsSettled(Written(server, SightOf(lanes, Visit(None, None, NoFault)), p, NoFault), p)
            <==> IsSettled(lanes, p) || KeepsAsIs(server, p.spec)
  {
  }

  lemma {:induction false} QuietPassSettlesExactly(server: Server, lanes: Lanes, profiles: seq<Profile>)
    requires AreDistinct(Names(profiles))
    ensures forall i | 0 <= i < |profiles| ::
              IsSettled(LanesAt(server, lanes, profiles, UNDISTURBED, |profiles|), profiles[i])
              <==> IsSettled(lanes, profiles[i]) || KeepsAsIs(server, profiles[i].spec)
  {
    forall i | 0 <= i < |profiles|
      ensures IsSettled(LanesAt(server, lanes, profiles, UNDISTURBED, |profiles|), profiles[i])
              <==> IsSettled(lanes, profiles[i]) || KeepsAsIs(server, profiles[i].spec)
    {
      var p := profiles[i];
      forall k | 0 <= k < |profiles| && k != i
        ensures profiles[k].name != p.name
      {
        assert Names(profiles)[k] != Names(profiles)[i];
      }
      OthersLeaveIt(server, lanes, profiles, 0, i, p.name);
      QuietVisitSettlesExactly(server, LanesAt(server, lanes, profiles, UNDISTURBED, i), p);
      OthersLeaveIt(server, lanes, profiles, i + 1, |profiles|, p.name);
    }
  }

  /** The profiles of a parsed document under the API server's schema: an
      undisturbed pass settles exactly those that were settled or whose declared
      transport is not mere white space. */
  lemma {:induction false} ParsedProfilesSettleExactly(lanes: Lanes, documents: seq<Profile>, profiles: seq<Profile>)
    requires |profiles| == |documents| && AreDistinct(Names(profiles))
    requires forall i | 0 <= i < |profiles| :: Normalized(documents[i]) == Some(profiles[i])
    ensures forall i | 0 <= i < |profiles| ::
              IsSettled(LanesAt(Stored, lanes, profiles, UNDISTURBED, |profiles|), profiles[i])
              <==> IsSettled(lanes, profiles[i]) || IsUsableTransport(documents[i].spec.transport)
  {
    QuietPassSettlesExactly(Stored, lanes, profiles);
    forall i | 0 <= i < |profiles|
      ensures KeepsAsIs(Stored, profiles[i].spec) <==> IsUsableTransport(documents[i].spec.transport)
    {
      NormalizedIsStorable(documents[i], profiles[i]);
    }
  }

  /** Undisturbed profiles request nothing exactly when all of them are settled. */
  lemma {:induction false} NoRequestsExactly(server: Server, lanes: Lanes, profiles: seq<Profile>, n: nat)
    requires n <= |profiles|
    ensures WritesRequested(server, lanes, profiles, UNDISTURBED, n) == 0 <==> forall i | 0 <= i < n :: IsSettled(lanes, profiles[i])
    ensures WritesRequested(server, lanes, profiles, UNDISTURBED, n) == 0 ==> LanesAt(server, lanes, profiles, UNDISTURBED, n) == lanes
  {
    if n > 0 {
      NoRequestsExactly(server, lanes, profiles, n - 1);
    }
  }

  // ---- steps of a pass ----

  /** A pass after i profiles: the cluster, the writes requested, what collided and what failed. */
  predicate IsMidway(
    server: Server, start: Lanes, profiles: seq<Profile>, visits: nat -> Visit, i: nat,
    lanes: Lanes, requested: int, before: set<string>, colliding: set<string>, failed: set<string>)
    requires i <= |profiles|
  {
    && lanes == LanesAt(server, start, profiles, visits, i) && requested == WritesRequested(server, start, profiles, visits, i)
    && colliding == before + Collided(server, start, profiles, visits, i)
    && failed == Collided(server, start, profiles, visits, i) + Erred(server, start, profiles, visits, i)
  }

  lemma {:induction false} MidwayStart(server: Server, start: Lanes, profiles: seq<Profile>, visits: nat -> Visit, colliding: set<string>)
    ensures IsMidway(server, start, profiles, visits, 0, start, 0, colliding, colliding, {})
  {
  }

  lemma {:induction false} MidwayStep(
    server: Server, start: Lanes, profiles: seq<Profile>, visits: nat -> Visit, i: nat,
    lanes: Lanes, requested: int, before: set<string>, colliding: set<string>, failed: set<string>,
    trouble: Trouble, after: Lanes, requested': int)
    requires i < |profiles| && IsMidway(server, start, profiles, visits, i, lanes, requested, before, colliding, failed)
    requires IsEnsured(server, lanes, profiles[i], visits(i), trouble, after, requested' - requested)
    ensures IsMidway(server, start, profiles, visits, i + 1, after, requested', before,
                     if trouble.Collision? then colliding + {profiles[i].name} else colliding,
                     if trouble.Fine? then failed else failed + {profiles[i].name})
  {
    assert SightAt(server, start, profiles, visits, i) == SightOf(lanes, visits(i));
  }

  lemma {:induction false} FailedNamesAppend(errors: seq<Failure>, f: Failure)
    ensures FailedNames(errors + [f]) == FailedNames(errors) + {f.name}
  {
    var more := errors + [f];
    assert more[|errors|] == f && forall i | 0 <= i < |errors| :: more[i] == errors[i];
    forall n | n in FailedNames(errors) + {f.name}
      ensures n in FailedNames(more)
    {
      if n != f.name {
        var i :| 0 <= i < |errors| && errors[i].name == n;
        assert more[i].name == n;
      } else {
        assert more[|errors|].name == n;
      }
    }
  }

  lemma {:induction false} NamesAreConfigured(server: Server, lanes: Lanes, profiles: seq<Profile>, visits: nat -> Visit, n: nat)
    requires n <= |profiles|
    ensures Collided(server, lanes, profiles, visits, n) <= NameSet(profiles) && Erred(server, lanes, profiles, visits, n) <= NameSet(profiles)
  {
    if n > 0 {
      NamesAreConfigured(server, lanes, profiles, visits, n - 1);
    }
  }

  /** A lane that others take, give up and take again: the name is reported
      blocked, resolved and blocked. */
  method BlockedAgain(server: Server, p: Profile, theirs: Spec) returns (r: Reconciler)
    ensures [true, false, true] <= History(r.log, p.name)
  {
    var taken, given := map[p.name := Lane(false, theirs, 0)], map[p.name := Lane(true, p.spec, 1)];
    r := new Reconciler(server, map[]);
    ghost var none := r.log;
    PassOverOne(r, p, taken);
    ghost var first := r.log;
    PassOverOne(r, p, given);
    ghost var second := r.log;
    PassOverOne(r, p, taken);
    HistoryGrows(none, first, p.name);
    HistoryGrows(first, second, p.name);
    HistoryGrows(second, r.log, p.name);
    ThreeReports(History(none, p.name), History(first, p.name), History(second, p.name), History(r.log, p.name));
  }

  /** A pass over one profile that finds the given cluster: the name collides
      afterwards exactly when the lane is somebody else's. */
  method PassOverOne(r: Reconciler, p: Profile, found: Lanes)
    requires Consistent(r.log, r.colliding) && r.colliding <= {p.name} && IsSettled(found, p)
    modifies r
    ensures Consistent(r.log, r.colliding) && old(r.log) <= r.log
    ensures r.colliding == if IsForeign(found, p.name) then {p.name} else {}
  {
    OnePass(r.server, r.colliding, r.lanes, p, found);
    var errors := r.ReconcileAll(Some([p]), Finding(found));
  }

  /** A name that is colliding, not colliding and colliding again has three reports. */
  lemma {:induction false} ThreeReports(none: seq<bool>, first: seq<bool>, second: seq<bool>, third: seq<bool>)
    requires |none| <= |first| <= |second| <= |third|
    requires IsConsistent(none, false) && IsConsistent(first, true)
    requires IsConsistent(second, false) && IsConsistent(third, true)
    ensures [true, false, true] <= third
  {
    assert |third| >= 3 && third[0] && !third[1] && third[2];
  }

  function Finding(found: Lanes): nat -> Visit {
    (i: nat) => Visit(Some(found), None, NoFault)
  }

  lemma {:induction false} OnePass(server: Server, colliding: set<string>, lanes: Lanes, p: Profile, found: Lanes)
    requires colliding <= {p.name} && IsSettled(found, p)
    ensures LanesAt(server, lanes, [p], Finding(found), 1) == found
    ensures CollidingAfterPass(server, colliding, lanes, [p], Finding(found)) == if IsForeign(found, p.name) then {p.name} else {}
  {
    var visits := Finding(found);
    assert SightAt(server, lanes, [p], visits, 0) == Sight(found, found);
    assert Collided(server, lanes, [p], visits, 0) == {} && Erred(server, lanes, [p], visits, 0) == {};
  }
}
