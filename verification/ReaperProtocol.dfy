/** Every interleaving of supervised runs, drain passes, other commands and the
    kernel (cmd/courier-executor/reaper.go:148-259). */
module ReaperProtocol {
  import opened Options
  import opened Reaper

  /** A run: it locks the gate, starts and registers its child, waits for the
      status and unregisters. `Lost` means that the status was taken by somebody else. */
  datatype Phase = Unborn | Locked | Started(pid: Pid, leads: bool) | Waiting(pid: Pid) | Taken(pid: Pid) | Over | Lost

  datatype Gate = Free | HeldByRun(id: nat) | HeldByDrain

  /** The drain: between passes, with pids to go, or with one pid past its checks. */
  datatype Drain =
    | Off
    | Relist
    | Pass(todo: seq<Pid>, again: bool)
    | Checked(pid: Pid, todo: seq<Pid>, again: bool)
    | Watched(pid: Pid, todo: seq<Pid>, again: bool)

  datatype State = State(
    gate: Gate, supervised: set<Pid>, groups: set<nat>, kids: map<Pid, Kid>,
    runs: map<nat, Phase>, drain: Drain, collected: seq<Kid>)

  const INITIAL := State(Free, {}, {}, map[], map[], Off, [])

  function PhaseOf(s: State, r: nat): Phase {
    if r in s.runs then s.runs[r] else Unborn
  }

  function Moved(s: State, r: nat, phase: Phase): State {
    s.(runs := s.runs[r := phase])
  }

  datatype Action =
    | Lock(r: nat) | Start(r: nat, pid: Pid, leads: bool) | FailStart(r: nat) | Register(r: nat) | Wait(r: nat) | Unregister(r: nat)
    | Spawn(pid: Pid) | Reap(pid: Pid) | Adopt(pid: Pid, group: nat, dead: bool) | Die(pid: Pid)
    | LockDrain | List(pids: seq<Pid>) | FailList | Check | ReadGroup | Collect | EndPass

  /** The steps of one run. */
  function RunStep(s: State, a: Action): Option<State> {
    match a
    case Lock(r) => if PhaseOf(s, r).Unborn? && s.gate.Free? then Some(Moved(s, r, Locked).(gate := HeldByRun(r))) else None
    case Start(r, pid, leads) =>
      if PhaseOf(s, r).Locked? && pid !in s.kids then
        Some(Moved(s, r, Started(pid, leads)).(kids := s.kids[pid := Kid(if leads then pid else OWN_GROUP, false, Run(r))]))
      else None
    case FailStart(r) => if PhaseOf(s, r).Locked? then Some(Moved(s, r, Over).(gate := Free)) else None
    case Register(r) =>
      if PhaseOf(s, r).Started? then
        var p := PhaseOf(s, r);
        Some(Moved(s, r, Waiting(p.pid)).(gate := Free, supervised := s.supervised + {p.pid},
                                          groups := if p.leads then s.groups + {p.pid} else s.groups))
      else None
    case Wait(r) =>
      if PhaseOf(s, r).Waiting? then
        var pid := PhaseOf(s, r).pid;
        if pid !in s.kids || s.kids[pid].owner != Run(r) then Some(Moved(s, r, Lost))
        else if s.kids[pid].dead then Some(Moved(s, r, Taken(pid)).(kids := s.kids - {pid}))
        else None
      else None
    case Unregister(r) =>
      if PhaseOf(s, r).Taken? then Some(Moved(s, r, Over).(supervised := s.supervised - {PhaseOf(s, r).pid})) else None
    case _ => None
  }

  /** What the kernel and other commands of the process do meanwhile. */
  function WorldStep(s: State, a: Action): Option<State> {
    match a
    case Spawn(pid) => if pid !in s.kids then Some(s.(kids := s.kids[pid := Kid(OWN_GROUP, false, Command)])) else None
    case Reap(pid) =>
      if pid in s.kids && s.kids[pid].owner.Command? && s.kids[pid].dead then Some(s.(kids := s.kids - {pid})) else None
    case Adopt(pid, group, dead) => if pid !in s.kids then Some(s.(kids := s.kids[pid := Kid(group, dead, Orphan)])) else None
    case Die(pid) => if pid in s.kids then Some(s.(kids := s.kids[pid := s.kids[pid].(dead := true)])) else None
    case _ => None
  }

  /** The steps of the drain; any part of the children may be listed. */
  function DrainStep(s: State, a: Action): Option<State> {
    match (s.drain, a)
    case (Off, LockDrain) => if s.gate.Free? then Some(s.(gate := HeldByDrain, drain := Relist)) else None
    case (Relist, List(pids)) => if forall p | p in pids :: p in s.kids then Some(s.(drain := Pass(pids, false))) else None
    case (Relist, FailList) => Some(s.(gate := Free, drain := Off))
    case (Pass(todo, again), Check) =>
      if todo == [] then None
      else if todo[0] in s.supervised then Some(s.(drain := Pass(todo[1..], again)))
      else Some(s.(drain := Checked(todo[0], todo[1..], again)))
    case (Checked(pid, todo, again), ReadGroup) =>
      if pid in s.kids && s.kids[pid].group in s.groups then Some(s.(drain := Watched(pid, todo, again)))
      else Some(s.(drain := Pass(todo, again)))
    case (Watched(pid, todo, again), Collect) =>
      if pid in s.kids && s.kids[pid].dead then
        Some(s.(kids := s.kids - {pid}, collected := s.collected + [s.kids[pid]], drain := Pass(todo, true)))
      else Some(s.(drain := Pass(todo, again)))
    case (Pass(todo, again), EndPass) =>
      if todo != [] then None else if again then Some(s.(drain := Relist)) else Some(s.(gate := Free, drain := Off))
    case _ => None
  }

  function Step(s: State, a: Action): Option<State> {
    match a
    case Lock(_) | Start(_, _, _) | FailStart(_) | Register(_) | Wait(_) | Unregister(_) => RunStep(s, a)
    case Spawn(_) | Reap(_) | Adopt(_, _, _) | Die(_) => WorldStep(s, a)
    case _ => DrainStep(s, a)
  }

  /** A pid is not reissued to a child that leads its own group while a run that
      has taken its status has not unregistered it. */
  predicate FreshPid(s: State, a: Action) {
    a.Start? && a.leads ==> forall q | q in s.runs :: s.runs[q] != Taken(a.pid)
  }

  /** Executes the actions; None when one of them is not possible. */
  function Execute(s: State, actions: seq<Action>): Option<State>
    decreases |actions|
  {
    if actions == [] then Some(s)
    else match Step(s, actions[0])
      case None => None
      case Some(s') => Execute(s', actions[1..])
  }

  predicate FreshPids(s: State, actions: seq<Action>)
    decreases |actions|
  {
    actions != [] ==> FreshPid(s, actions[0]) && (Step(s, actions[0]).Some? ==> FreshPids(Step(s, actions[0]).value, actions[1..]))
  }

  // ---- the invariant ----

  predicate HasChild(p: Phase) {
    p.Started? || p.Waiting?
  }

  /** Its child is there for the run to wait for, in its own or in the executor's group. */
  predicate OwnsChild(s: State, r: nat) {
    var p := PhaseOf(s, r);
    HasChild(p) ==>
      && p.pid in s.kids && s.kids[p.pid].owner == Run(r)
      && (s.kids[p.pid].group == OWN_GROUP || s.kids[p.pid].group == p.pid)
      && (p.Started? ==> (p.leads <==> s.kids[p.pid].group == p.pid))
  }

  /** A waiting leader is registered, and a run that starts a child holds the gate. */
  predicate IsRegistered(s: State, r: nat) {
    var p := PhaseOf(s, r);
    && (p.Waiting? && p.pid in s.kids && s.kids[p.pid].group != OWN_GROUP ==> p.pid in s.supervised)
    && (p.Locked? || p.Started? ==> s.gate == HeldByRun(r))
    && !p.Lost?
  }

  /** No run still has to unregister the pid of another run's leader. */
  predicate AreApart(s: State, q: nat, r: nat) {
    var p := PhaseOf(s, r);
    HasChild(p) && PhaseOf(s, q) == Taken(p.pid) && p.pid in s.kids ==> s.kids[p.pid].group == OWN_GROUP
  }

  /** A child is a run's while the run has started it, and a command's stays in the own group. */
  predicate IsAccounted(s: State, pid: Pid)
    requires pid in s.kids
  {
    match s.kids[pid].owner
    case Run(r) => var p := PhaseOf(s, r); HasChild(p) && p.pid == pid
    case Command => s.kids[pid].group == OWN_GROUP
    case Orphan => true
  }

  predicate IsAdopted(s: State, kid: Kid) {
    kid.owner.Orphan? && kid.group in s.groups
  }

  predicate DrainInv(s: State) {
    && (s.drain.Off? <==> !s.gate.HeldByDrain?)
    && (s.drain.Checked? ==> s.drain.pid !in s.supervised)
    && (s.drain.Watched? ==> s.drain.pid in s.kids && IsAdopted(s, s.kids[s.drain.pid]))
    && OWN_GROUP !in s.groups
    && forall i | 0 <= i < |s.collected| :: IsAdopted(s, s.collected[i])
  }

  ghost predicate RunsInv(s: State) {
    && (forall r: nat :: OwnsChild(s, r) && IsRegistered(s, r))
    && (forall q: nat, r: nat :: AreApart(s, q, r))
    && (forall pid | pid in s.kids :: IsAccounted(s, pid))
  }

  ghost predicate Inv(s: State) {
    RunsInv(s) && DrainInv(s)
  }

  lemma {:induction false} RunStepKeepsRuns(s: State, a: Action)
    requires Inv(s) && FreshPid(s, a) && RunStep(s, a).Some?
    ensures RunsInv(RunStep(s, a).value)
  {
    var s' := RunStep(s, a).value;
    forall r: nat
      ensures OwnsChild(s', r) && IsRegistered(s', r)
    {
      RunStepKeepsRun(s, a, r);
    }
    forall q: nat, r: nat
      ensures AreApart(s', q, r)
    {
      RunStepKeepsApart(s, a, q, r);
    }
    forall pid | pid in s'.kids
      ensures IsAccounted(s', pid)
    {
      assert pid in s.kids ==> IsAccounted(s, pid);
      assert OwnsChild(s, a.r);
    }
  }

  lemma {:induction false} RunStepKeepsRun(s: State, a: Action, r: nat)
    requires Inv(s) && RunStep(s, a).Some?
    ensures OwnsChild(RunStep(s, a).value, r) && IsRegistered(RunStep(s, a).value, r)
  {
    assert OwnsChild(s, a.r) && IsRegistered(s, a.r) && OwnsChild(s, r) && IsRegistered(s, r) && AreApart(s, a.r, r);
  }

  lemma {:induction false} RunStepKeepsApart(s: State, a: Action, q: nat, r: nat)
    requires Inv(s) && FreshPid(s, a) && RunStep(s, a).Some?
    ensures AreApart(RunStep(s, a).value, q, r)
  {
    assert OwnsChild(s, a.r) && OwnsChild(s, r) && OwnsChild(s, q) && AreApart(s, q, r);
  }

  lemma {:induction false} RunStepKeepsDrain(s: State, a: Action)
    requires Inv(s) && RunStep(s, a).Some?
    ensures DrainInv(RunStep(s, a).value)
  {
    assert OwnsChild(s, a.r) && IsRegistered(s, a.r);
    var s' := RunStep(s, a).value;
    forall i | 0 <= i < |s'.collected|
      ensures IsAdopted(s', s'.collected[i])
    {
      assert IsAdopted(s, s.collected[i]);
    }
  }

  lemma {:induction false} WorldStepKeepsInv(s: State, a: Action)
    requires Inv(s) && WorldStep(s, a).Some?
    ensures Inv(WorldStep(s, a).value)
  {
    var s' := WorldStep(s, a).value;
    RunsUntouched(s, s');
  }

  lemma {:induction false} DrainStepKeepsInv(s: State, a: Action)
    requires Inv(s) && DrainStep(s, a).Some?
    ensures Inv(DrainStep(s, a).value)
  {
    var s' := DrainStep(s, a).value;
    if s.drain.Checked? && s.drain.pid in s.kids {
      assert IsAccounted(s, s.drain.pid);
      var owner := s.kids[s.drain.pid].owner;
      assert owner.Run? ==> IsRegistered(s, owner.id) && OwnsChild(s, owner.id);
    }
    RunsUntouched(s, s');
    forall i | 0 <= i < |s'.collected|
      ensures IsAdopted(s', s'.collected[i])
    {
      assert i < |s.collected| ==> IsAdopted(s, s.collected[i]);
    }
  }

  /** Steps of others keep the runs' part when no run's child changes hands. */
  lemma {:induction false} RunsUntouched(s: State, s': State)
    requires RunsInv(s) && s'.runs == s.runs && s'.supervised == s.supervised
    requires forall r: nat :: s.gate == HeldByRun(r) ==> s'.gate == HeldByRun(r)
    requires forall pid | pid in s.kids && s.kids[pid].owner.Run? ::
               pid in s'.kids && s'.kids[pid].owner == s.kids[pid].owner && s'.kids[pid].group == s.kids[pid].group
    requires forall pid | pid in s'.kids ::
               || (pid in s.kids && s'.kids[pid].owner == s.kids[pid].owner && s'.kids[pid].group == s.kids[pid].group)
               || s'.kids[pid].owner.Orphan? || (s'.kids[pid].owner.Command? && s'.kids[pid].group == OWN_GROUP)
    ensures RunsInv(s')
  {
    forall r: nat
      ensures OwnsChild(s', r) && IsRegistered(s', r)
    {
      assert OwnsChild(s, r) && IsRegistered(s, r);
    }
    forall q: nat, r: nat
      ensures AreApart(s', q, r)
    {
      assert AreApart(s, q, r) && OwnsChild(s, r);
    }
    forall pid | pid in s'.kids
      ensures IsAccounted(s', pid)
    {
      assert pid in s.kids ==> IsAccounted(s, pid);
    }
  }

  lemma {:induction false} StepKeepsInv(s: State, a: Action)
    requires Inv(s) && FreshPid(s, a) && Step(s, a).Some?
    ensures Inv(Step(s, a).value)
  {
    if RunStep(s, a).Some? {
      RunStepKeepsRuns(s, a);
      RunStepKeepsDrain(s, a);
    } else if WorldStep(s, a).Some? {
      WorldStepKeepsInv(s, a);
    } else {
      DrainStepKeepsInv(s, a);
    }
  }

  lemma {:induction false} ExecutionKeepsInv(s: State, actions: seq<Action>)
    requires Inv(s) && FreshPids(s, actions) && Execute(s, actions).Some?
    ensures Inv(Execute(s, actions).value)
    decreases |actions|
  {
    if actions != [] {
      StepKeepsInv(s, actions[0]);
      ExecutionKeepsInv(Step(s, actions[0]).value, actions[1..]);
    }
  }

  /** In every interleaving, no exit status is stolen: every waiting run's child
      is still there for it, no wait has come back empty, and what the drain
      collected were orphans in groups that supervised children led. */
  lemma {:induction false} NoStatusIsStolen(actions: seq<Action>)
    requires FreshPids(INITIAL, actions) && Execute(INITIAL, actions).Some?
    ensures var s := Execute(INITIAL, actions).value;
            && (forall r: nat :: OwnsChild(s, r) && !PhaseOf(s, r).Lost?)
            && (forall i | 0 <= i < |s.collected| :: s.collected[i].owner.Orphan? && s.collected[i].group in s.groups)
  {
    ExecutionKeepsInv(INITIAL, actions);
    var s := Execute(INITIAL, actions).value;
    forall r: nat
      ensures OwnsChild(s, r) && !PhaseOf(s, r).Lost?
    {
      assert OwnsChild(s, r) && IsRegistered(s, r);
    }
    assert forall i | 0 <= i < |s.collected| :: IsAdopted(s, s.collected[i]);
  }

  // ---- drains make progress ----

  function Orphans(kids: map<Pid, Kid>): set<Pid> {
    set pid | pid in kids && kids[pid].owner.Orphan?
  }

  function Adoptions(actions: seq<Action>): nat {
    if actions == [] then 0 else AdoptionsIn(actions[0]) + Adoptions(actions[1..])
  }

  function Drains(actions: seq<Action>): nat {
    if actions == [] then 0 else (if actions[0].LockDrain? then 1 else 0) + Drains(actions[1..])
  }

  /** Every pass begins with a listing. */
  function Passes(actions: seq<Action>): nat {
    if actions == [] then 0 else (if actions[0].List? then 1 else 0) + Passes(actions[1..])
  }

  /** Passes that are still to come without anything more being collected. */
  function Owed(s: State): nat {
    if s.drain.Relist? then 1
    else if (s.drain.Pass? || s.drain.Checked? || s.drain.Watched?) && s.drain.again then 1
    else 0
  }

  /** A pass is paid for by the start of a drain or by a collected child. */
  lemma {:induction false} StepPaysForPasses(s: State, a: Action)
    requires Step(s, a).Some?
    ensures var s' := Step(s, a).value;
            && |s.collected| <= |s'.collected|
            && (if a.List? then 1 else 0) + Owed(s') <= (if a.LockDrain? then 1 else 0) + Owed(s) + |s'.collected| - |s.collected|
  {
  }

  function AdoptionsIn(a: Action): nat {
    if a.Adopt? then 1 else 0
  }

  lemma {:induction false} RunsLeaveOrphans(s: State, a: Action)
    requires Inv(s) && RunStep(s, a).Some?
    ensures var s' := RunStep(s, a).value; Orphans(s'.kids) == Orphans(s.kids) && s'.collected == s.collected
  {
  }

  lemma {:induction false} AdoptedIsOneMore(kids: map<Pid, Kid>, pid: Pid, kid: Kid)
    requires pid !in kids && kid.owner.Orphan?
    ensures Orphans(kids[pid := kid]) == Orphans(kids) + {pid}
  {
  }

  lemma {:induction false} OthersAreNoOrphans(kids: map<Pid, Kid>, pid: Pid, kid: Kid)
    requires pid in kids ==> kid.owner == kids[pid].owner
    requires pid !in kids ==> !kid.owner.Orphan?
    ensures Orphans(kids[pid := kid]) == Orphans(kids)
    ensures !kid.owner.Orphan? ==> Orphans(kids - {pid}) == Orphans(kids)
  {
  }

  lemma {:induction false} WorldAdopts(s: State, a: Action)
    requires WorldStep(s, a).Some?
    ensures var s' := WorldStep(s, a).value; |Orphans(s'.kids)| <= |Orphans(s.kids)| + AdoptionsIn(a) && s'.collected == s.collected
  {
    match a
    case Adopt(pid, group, dead) => AdoptedIsOneMore(s.kids, pid, Kid(group, dead, Orphan));
    case Spawn(pid) => OthersAreNoOrphans(s.kids, pid, Kid(OWN_GROUP, false, Command));
    case Reap(pid) => OthersAreNoOrphans(s.kids, pid, s.kids[pid]);
    case Die(pid) => OthersAreNoOrphans(s.kids, pid, s.kids[pid].(dead := true));
  }

  lemma {:induction false} DrainCollectsOrphans(s: State, a: Action)
    requires Inv(s) && DrainStep(s, a).Some?
    ensures var s' := DrainStep(s, a).value; |s'.collected| + |Orphans(s'.kids)| <= |s.collected| + |Orphans(s.kids)|
  {
    var s' := DrainStep(s, a).value;
    if s'.kids != s.kids {
      assert s.drain.pid in Orphans(s.kids) && Orphans(s'.kids) == Orphans(s.kids) - {s.drain.pid};
    }
  }

  /** A collected child is paid for by an orphan. */
  lemma {:induction false} StepPaysForChildren(s: State, a: Action)
    requires Inv(s) && Step(s, a).Some?
    ensures var s' := Step(s, a).value;
            |s'.collected| + |Orphans(s'.kids)| <= |s.collected| + |Orphans(s.kids)| + AdoptionsIn(a)
  {
    if RunStep(s, a).Some? {
      RunsLeaveOrphans(s, a);
    } else if WorldStep(s, a).Some? {
      WorldAdopts(s, a);
    } else {
      DrainCollectsOrphans(s, a);
    }
  }

  /** From any reachable state, the passes of an execution are bounded by the
      drains that start in it, one owed pass and the children it collects; and
      those by the orphans there are and the adoptions. */
  lemma {:induction false} ProgressIsBounded(s: State, actions: seq<Action>)
    requires Inv(s) && FreshPids(s, actions) && Execute(s, actions).Some?
    ensures var s' := Execute(s, actions).value;
            && |s.collected| <= |s'.collected|
            && Passes(actions) + Owed(s') <= Drains(actions) + Owed(s) + |s'.collected| - |s.collected|
            && |s'.collected| + |Orphans(s'.kids)| <= |s.collected| + |Orphans(s.kids)| + Adoptions(actions)
    decreases |actions|
  {
    if actions != [] {
      var a := actions[0];
      StepPaysForPasses(s, a);
      StepPaysForChildren(s, a);
      StepKeepsInv(s, a);
      ProgressIsBounded(Step(s, a).value, actions[1..]);
    }
  }

  /** In every interleaving, a drain that starts after `before` and is the only one
      in `during` makes at most one pass more than it collects children, and the
      children ever collected are at most the orphans ever adopted: a drain goes on
      only as long as orphans keep arriving. */
  lemma {:induction false} DrainIsBounded(before: seq<Action>, during: seq<Action>)
    requires FreshPids(INITIAL, before + during) && Execute(INITIAL, before).Some?
    requires Execute(Execute(INITIAL, before).value, during).Some?
    requires Execute(INITIAL, before).value.drain.Off? && Drains(during) <= 1
    ensures var s, s' := Execute(INITIAL, before).value, Execute(Execute(INITIAL, before).value, during).value;
            && Passes(during) <= 1 + |s'.collected| - |s.collected|
            && |s'.collected| <= Adoptions(before) + Adoptions(during)
  {
    var s := Execute(INITIAL, before).value;
    FreshInTwo(INITIAL, before, during);
    ExecutionKeepsInv(INITIAL, before);
    ProgressIsBounded(INITIAL, before);
    ProgressIsBounded(s, during);
    assert Orphans(INITIAL.kids) == {};
  }

  lemma {:induction false} FreshInTwo(s: State, a: seq<Action>, b: seq<Action>)
    requires FreshPids(s, a + b) && Execute(s, a).Some?
    ensures FreshPids(s, a) && FreshPids(Execute(s, a).value, b)
    decreases |a|
  {
    if a == [] {
      assert a + b == b;
    } else {
      assert (a + b)[1..] == a[1..] + b;
      FreshInTwo(Step(s, a[0]).value, a[1..], b);
    }
  }

  // ---- exactly when a reissued pid loses a status ----

  /** Some way to go on, with no further stale start, in which a wait comes back empty. */
  ghost predicate LosesStatus(s: State, actions: seq<Action>) {
    && FreshPids(s, actions) && Execute(s, actions).Some?
    && exists x: nat :: PhaseOf(Execute(s, actions).value, x).Lost?
  }

  lemma {:induction false} WithoutStartsIsFresh(s: State, actions: seq<Action>)
    requires forall i | 0 <= i < |actions| :: !actions[i].Start?
    ensures FreshPids(s, actions)
    decreases |actions|
  {
    if actions != [] {
      assert !actions[0].Start?;
      if Step(s, actions[0]).Some? {
        WithoutStartsIsFresh(Step(s, actions[0]).value, actions[1..]);
      }
    }
  }

  /** The states after each action of a possible execution. */
  ghost predicate IsTrace(s: State, actions: seq<Action>, states: seq<State>) {
    && |states| == |actions| + 1 && states[0] == s
    && forall i | 0 <= i < |actions| :: Step(states[i], actions[i]) == Some(states[i + 1])
  }

  lemma {:induction false} TraceExecutes(s: State, actions: seq<Action>, states: seq<State>)
    requires IsTrace(s, actions, states)
    ensures Execute(s, actions) == Some(states[|actions|])
    decreases |actions|
  {
    if actions != [] {
      assert Step(states[0], actions[0]) == Some(states[1]);
      TraceExecutes(states[1], actions[1..], states[1..]);
    }
  }

  lemma {:induction false} ExecuteInTwo(s: State, a: seq<Action>, b: seq<Action>)
    requires Execute(s, a).Some?
    ensures Execute(s, a + b) == Execute(Execute(s, a).value, b)
    decreases |a|
  {
    if a == [] {
      assert a + b == b;
    } else {
      assert (a + b)[1..] == a[1..] + b;
      ExecuteInTwo(Step(s, a[0]).value, a[1..], b);
    }
  }

  /** Run q has taken its status and run r has started a leader under the same pid. */
  predicate IsReissued(s: State, pid: Pid, q: nat, r: nat) {
    && s.drain.Off? && PhaseOf(s, q) == Taken(pid) && PhaseOf(s, r) == Started(pid, true)
    && pid in s.kids && s.kids[pid].owner == Run(r) && s.kids[pid].group == pid
  }

  /** Run r waits for a dead leader that nobody registers any more. */
  predicate IsExposed(s: State, pid: Pid, r: nat) {
    && s.gate.Free? && s.drain.Off? && pid !in s.supervised && pid in s.groups
    && pid in s.kids && s.kids[pid].dead && s.kids[pid].owner == Run(r) && s.kids[pid].group == pid
    && PhaseOf(s, r) == Waiting(pid)
  }

  predicate IsListed(s: State, pid: Pid, r: nat) {
    && s.gate.HeldByDrain? && s.drain == Pass([pid], false) && pid !in s.supervised && pid in s.groups
    && pid in s.kids && s.kids[pid].dead && s.kids[pid].group == pid && PhaseOf(s, r) == Waiting(pid)
  }

  /** The drain has taken the child's status. */
  predicate IsStolen(s: State, pid: Pid, r: nat) {
    s.drain == Pass([], true) && pid !in s.kids && PhaseOf(s, r) == Waiting(pid)
  }

  /** The earlier run's unregistration takes the new registration with it, the
      child dies, a drain collects it, and its own run waits in vain. */
  function Expose(pid: Pid, q: nat, r: nat): seq<Action> { [Register(r), Unregister(q), Die(pid)] }
  function ListIt(pid: Pid): seq<Action> { [LockDrain, List([pid])] }
  function TakeIt(): seq<Action> { [Check, ReadGroup, Collect] }
  function LoseIt(r: nat): seq<Action> { [EndPass, FailList, Wait(r)] }

  function Theft(pid: Pid, q: nat, r: nat): seq<Action> {
    Expose(pid, q, r) + (ListIt(pid) + (TakeIt() + LoseIt(r)))
  }

  lemma {:induction false} ReissuedIsExposed(s: State, pid: Pid, q: nat, r: nat) returns (s': State)
    requires IsReissued(s, pid, q, r)
    ensures Execute(s, Expose(pid, q, r)) == Some(s') && IsExposed(s', pid, r)
  {
    var s1 := Step(s, Register(r)).value;
    var s2 := Step(s1, Unregister(q)).value;
    s' := Step(s2, Die(pid)).value;
    TraceExecutes(s, Expose(pid, q, r), [s, s1, s2, s']);
  }

  lemma {:induction false} ExposedIsListed(s: State, pid: Pid, r: nat) returns (s': State)
    requires IsExposed(s, pid, r)
    ensures Execute(s, ListIt(pid)) == Some(s') && IsListed(s', pid, r)
  {
    var s1 := Step(s, LockDrain).value;
    s' := Step(s1, List([pid])).value;
    TraceExecutes(s, ListIt(pid), [s, s1, s']);
  }

  lemma {:induction false} ListedIsStolen(s: State, pid: Pid, r: nat) returns (s': State)
    requires IsListed(s, pid, r)
    ensures Execute(s, TakeIt()) == Some(s') && IsStolen(s', pid, r)
  {
    assert s.drain.todo[1..] == [];
    var s1 := Step(s, Check).value;
    var s2 := Step(s1, ReadGroup).value;
    assert s2.drain == Watched(pid, [], false);
    s' := Step(s2, Collect).value;
    TraceExecutes(s, TakeIt(), [s, s1, s2, s']);
  }

  lemma {:induction false} StolenIsLost(s: State, pid: Pid, r: nat) returns (s': State)
    requires IsStolen(s, pid, r)
    ensures Execute(s, LoseIt(r)) == Some(s') && PhaseOf(s', r).Lost?
  {
    var s1 := Step(s, EndPass).value;
    var s2 := Step(s1, FailList).value;
    s' := Step(s2, Wait(r)).value;
    TraceExecutes(s, LoseIt(r), [s, s1, s2, s']);
  }

  lemma {:induction false} Chained(s: State, a: seq<Action>, middle: State, b: seq<Action>, end: State)
    requires Execute(s, a) == Some(middle) && Execute(middle, b) == Some(end)
    ensures Execute(s, a + b) == Some(end)
  {
    ExecuteInTwo(s, a, b);
  }

  lemma {:induction false} TheftStartsNothing(pid: Pid, q: nat, r: nat)
    ensures forall i | 0 <= i < |Theft(pid, q, r)| :: !Theft(pid, q, r)[i].Start?
  {
  }

  lemma {:induction false} TheftExecutes(s: State, pid: Pid, q: nat, r: nat) returns (lost: State)
    requires IsReissued(s, pid, q, r)
    ensures Execute(s, Theft(pid, q, r)) == Some(lost) && PhaseOf(lost, r).Lost?
  {
    var a, b, c, d := Expose(pid, q, r), ListIt(pid), TakeIt(), LoseIt(r);
    var exposed := ReissuedIsExposed(s, pid, q, r);
    var listed := ExposedIsListed(exposed, pid, r);
    var stolen := ListedIsStolen(listed, pid, r);
    lost := StolenIsLost(stolen, pid, r);
    Chained(listed, c, stolen, d, lost);
    Chained(exposed, b, listed, c + d, lost);
    Chained(s, a, exposed, b + (c + d), lost);
  }

  lemma {:induction false} ReissuedIsLost(s: State, pid: Pid, q: nat, r: nat)
    requires IsReissued(s, pid, q, r)
    ensures LosesStatus(s, Theft(pid, q, r))
  {
    var lost := TheftExecutes(s, pid, q, r);
    TheftStartsNothing(pid, q, r);
    WithoutStartsIsFresh(s, Theft(pid, q, r));
  }

  lemma {:induction false} KeptInvariantLosesNothing(s: State, actions: seq<Action>)
    requires Inv(s)
    ensures !LosesStatus(s, actions)
  {
    if FreshPids(s, actions) && Execute(s, actions).Some? {
      ExecutionKeepsInv(s, actions);
      var s' := Execute(s, actions).value;
      forall x: nat
        ensures !PhaseOf(s', x).Lost?
      {
        assert IsRegistered(s', x);
      }
    }
  }

  /** From every state of the invariant, a start can lead to a lost status exactly
      when its child leads its own group under a pid whose status another run has
      taken and not yet unregistered. */
  lemma {:induction false} StatusIsLostExactly(s: State, r: nat, pid: Pid, leads: bool)
    requires Inv(s) && Step(s, Start(r, pid, leads)).Some?
    ensures (exists actions :: LosesStatus(Step(s, Start(r, pid, leads)).value, actions))
            <==> leads && exists q: nat :: PhaseOf(s, q) == Taken(pid)
  {
    var s' := Step(s, Start(r, pid, leads)).value;
    if leads && exists q: nat :: PhaseOf(s, q) == Taken(pid) {
      var q: nat :| PhaseOf(s, q) == Taken(pid);
      assert IsRegistered(s, r);
      assert IsReissued(s', pid, q, r);
      ReissuedIsLost(s', pid, q, r);
    } else {
      assert forall q | q in s.runs :: s.runs[q] == PhaseOf(s, q);
      StepKeepsInv(s, Start(r, pid, leads));
      forall actions
        ensures !LosesStatus(s', actions)
      {
        KeptInvariantLosesNothing(s', actions);
      }
    }
  }

  function Linger(pid: Pid, q: nat): seq<Action> {
    [Lock(q), Start(q, pid, true), Register(q), Die(pid), Wait(q)]
  }

  /** Such a state is reached by any two runs under any pid: the first one has its
      status and lingers, and the second one is about to start. */
  lemma {:induction false} ReissueIsReachable(pid: Pid, q: nat, r: nat) returns (s: State)
    requires q != r
    ensures FreshPids(INITIAL, Linger(pid, q) + [Lock(r)]) && Execute(INITIAL, Linger(pid, q) + [Lock(r)]) == Some(s)
    ensures Inv(s) && PhaseOf(s, q) == Taken(pid) && Step(s, Start(r, pid, true)).Some?
  {
    var actions := Linger(pid, q) + [Lock(r)];
    var lingering := FirstRunLingers(pid, q);
    s := Step(lingering, Lock(r)).value;
    assert Execute(lingering, [Lock(r)]) == Execute(s, []);
    ExecuteInTwo(INITIAL, Linger(pid, q), [Lock(r)]);
    OnlyStartIsFresh(pid, q, [Register(q), Die(pid), Wait(q), Lock(r)]);
    assert actions == [Lock(q), Start(q, pid, true)] + [Register(q), Die(pid), Wait(q), Lock(r)];
    ExecutionKeepsInv(INITIAL, actions);
  }

  lemma {:induction false} FirstRunLingers(pid: Pid, q: nat) returns (s: State)
    ensures Execute(INITIAL, Linger(pid, q)) == Some(s)
    ensures s.gate.Free? && s.drain.Off? && pid !in s.kids && s.runs == map[q := Taken(pid)]
  {
    var s1 := Step(INITIAL, Lock(q)).value;
    var s2 := Step(s1, Start(q, pid, true)).value;
    var s3 := Step(s2, Register(q)).value;
    assert s3.kids == map[pid := Kid(pid, false, Run(q))];
    var s4 := Step(s3, Die(pid)).value;
    s := Step(s4, Wait(q)).value;
    TraceExecutes(INITIAL, Linger(pid, q), [INITIAL, s1, s2, s3, s4, s]);
  }

  lemma {:induction false} OnlyStartIsFresh(pid: Pid, q: nat, rest: seq<Action>)
    requires forall i | 0 <= i < |rest| :: !rest[i].Start?
    ensures FreshPids(INITIAL, [Lock(q), Start(q, pid, true)] + rest)
  {
    var actions := [Lock(q), Start(q, pid, true)] + rest;
    var s1 := Step(INITIAL, Lock(q)).value;
    assert actions[1..][0] == Start(q, pid, true) && actions[1..][1..] == rest;
    if Step(s1, actions[1]).Some? {
      WithoutStartsIsFresh(Step(s1, actions[1]).value, rest);
    }
    assert FreshPids(s1, actions[1..]);
  }

  // ---- what the protocol gets done ----

  /** A run that nobody disturbs locks, starts and registers its child, cannot take
      the status while the child lives, takes it when it died, and unregisters; only
      a leader's group stays watched. A failed start gives the gate back. */
  lemma {:induction false} RunCompletes(s: State, r: nat, pid: Pid, leads: bool)
    requires PhaseOf(s, r).Unborn? && s.gate.Free? && pid !in s.kids
    ensures var kid := Kid(if leads then pid else OWN_GROUP, false, Run(r));
            var s1 := Moved(s, r, Locked).(gate := HeldByRun(r));
            var s2 := Moved(s1, r, Started(pid, leads)).(kids := s.kids[pid := kid]);
            var s3 := Moved(s2, r, Waiting(pid)).(
                        gate := Free, supervised := s.supervised + {pid}, groups := if leads then s.groups + {pid} else s.groups);
            var s4 := s3.(kids := s3.kids[pid := kid.(dead := true)]);
            var s5 := Moved(s4, r, Taken(pid)).(kids := s.kids);
            && Step(s, Lock(r)) == Some(s1)
            && Step(s1, FailStart(r)) == Some(Moved(s1, r, Over).(gate := Free))
            && Step(s1, Start(r, pid, leads)) == Some(s2)
            && Step(s2, Register(r)) == Some(s3)
            && Step(s3, Wait(r)) == None
            && Step(s3, Die(pid)) == Some(s4)
            && Step(s4, Wait(r)) == Some(s5)
            && Step(s5, Unregister(r)) == Some(Moved(s5, r, Over).(supervised := s5.supervised - {pid}))
  {
    var kid := Kid(if leads then pid else OWN_GROUP, false, Run(r));
    assert s.kids[pid := kid][pid := kid.(dead := true)] - {pid} == s.kids;
  }

  /** A drain that nobody disturbs checks a dead orphan of a registered group, reads
      its group and collects it ... */
  lemma {:induction false} DrainCollects(s: State, pid: Pid)
    requires s.gate.Free? && s.drain.Off? && pid in s.kids && s.kids[pid].dead && s.kids[pid].group in s.groups && pid !in s.supervised
    ensures var s1 := s.(gate := HeldByDrain, drain := Relist);
            var s2, s3, s4 := s1.(drain := Pass([pid], false)), s1.(drain := Checked(pid, [], false)), s1.(drain := Watched(pid, [], false));
            && Step(s, LockDrain) == Some(s1) && Step(s1, List([pid])) == Some(s2)
            && Step(s2, Check) == Some(s3) && Step(s3, ReadGroup) == Some(s4)
            && Step(s4, Collect) == Some(s1.(kids := s.kids - {pid}, collected := s.collected + [s.kids[pid]], drain := Pass([], true)))
  {
    assert [pid][1..] == [];
  }

  /** ... and looks again before it gives the gate back. */
  lemma {:induction false} DrainLooksAgain(s: State, again: bool)
    requires s.drain == Pass([], again)
    ensures Step(s, EndPass) == Some(if again then s.(drain := Relist) else s.(gate := Free, drain := Off))
  {
  }
}
