/** The executor's supervisor loop (cmd/courier-executor/main.go:729-1148): it
    starts the model child, decides from what the turn left behind whether the
    run ends, and otherwise starts another turn inside two budgets. */
module RunLoop {
  import opened Options
  import opened Handoff
  import SessionTap

  datatype Work = Untouched | Dirty | Committed

  datatype Declaration = Undeclared | Malformed | Changes | NoChange | NeedsDecision | BlockedExternal

  /** What one turn lets the supervisor observe. `served` is the session id that
      the attempt's own output named, `ahead` and `aheadAgain` are two reads of
      the run branch (None: unreadable), `check` is what the pre-handoff check
      found and `words` how its texts go on, `claim` is the read of the pinned pull
      request, `fingerprint` is None when it cannot be computed, and `worldRead`
      says that head, branch and status were readable. `exhausts` says that the
      turn raised the exhaustion signal, `recorded` that the tap holds its evidence. */
  datatype Turn = Turn(
    staleKept: bool, served: Option<string>, exhausts: bool, recorded: bool, crashes: bool, unresolvedSync: bool,
    work: Option<Work>, declaration: Declaration, ahead: Option<nat>, aheadAgain: Option<nat>,
    claim: Result<PinnedRead, ()>, check: Check, words: Words, fingerprint: Option<string>, worldRead: bool)

  /** The two budgets, and what the run's mode makes of handoffs and claims. */
  datatype Limits = Limits(continuations: nat, availability: nat, fixPr: bool, checksClaim: bool)

  function LimitsOf(cfg: Config, continuations: nat, availability: nat): Limits {
    Limits(continuations, availability, IsFixPrRun(cfg), ChecksClaim(cfg))
  }

  datatype Phase = Verifying | NoChangeNeeded | NeedsHuman | Failed

  datatype Cause =
    | StaleDeclaration | CapacityExhausted | ProviderUnavailable | ModelTransport | UnresolvedSync
    | WorkspaceUnreadable | InvalidDeclaration | Rejected | ForgeUnavailable | Merged | Declared
    | Delivered | Incomplete | NoFingerprint | Looping

  datatype Ending = Ending(phase: Phase, cause: Cause)

  /** The loop's variables. `resumed` says that the next child gets a message to
      resume with, and `clock` counts the points where the context is read. */
  datatype State = State(
    continuations: nat, availability: nat, session: Option<string>, exhausted: bool,
    fingerprint: Option<string>, resumed: bool, clock: nat)

  const INITIAL := State(0, 0, None, false, None, false, 0)

  /** The run context is cancelled at some moment or never, and stays cancelled. */
  type Cancellation = Option<nat>

  predicate Live(cancel: Cancellation, clock: nat) {
    cancel.None? || clock < cancel.value
  }

  datatype Step = End(ending: Ending) | Again(state: State)

  // ---- the decision of one turn ----

  function ClassifyDeclared(l: Limits, t: Turn, work: Work): Ending {
    match t.declaration
    case Changes =>
      if !work.Committed? || t.ahead == Some(0) then Ending(Failed, Rejected) else Ending(Verifying, Delivered)
    case NoChange => if !work.Untouched? || !ClaimStands(l.checksClaim, t.claim) then Ending(Failed, Rejected) else Ending(NoChangeNeeded, Declared)
    case NeedsDecision => Ending(NeedsHuman, Declared)
    case BlockedExternal => Ending(NeedsHuman, Declared)
    case _ => Ending(Failed, InvalidDeclaration)
  }

  function ClassifyUndeclared(work: Work, ahead: Option<nat>): Ending {
    if !work.Committed? then Ending(Failed, Incomplete)
    else if ahead.None? || ahead.value == 0 then Ending(Failed, Rejected)
    else Ending(Verifying, Delivered)
  }

  /** The context is read before the plan's forge reads and again after them. */
  function DecisionOf(l: Limits, cancel: Cancellation, s: State, t: Turn): Decision {
    Plan(t.check, l.fixPr, Resumable(s.continuations, l.continuations, s.session.Some?, Live(cancel, s.clock + 1)))
  }

  function HandOff(l: Limits, cancel: Cancellation, s: State, t: Turn): Step {
    var v := Render(DecisionOf(l, cancel, s, t), t.words);
    if v.continueMsg != "" then Again(s.(continuations := s.continuations + 1, resumed := true, clock := s.clock + 2))
    else if v.failReason != "" then End(Ending(NeedsHuman, if v.forgeUnavailable then ForgeUnavailable else Rejected))
    else if v.superseded then End(Ending(NoChangeNeeded, Merged))
    else End(Ending(Verifying, Delivered))
  }

  /** Whether the turn asks for the Verifying ending through the handoff plan. */
  predicate Candidate(t: Turn) {
    t.work.Some? &&
    if t.declaration.Undeclared? then t.work.value.Committed? && (t.ahead.None? || t.ahead.value > 0)
    else t.declaration.Changes? && t.work.value.Committed? && t.ahead != Some(0)
  }

  function Unfinished(l: Limits, s: State, t: Turn): Step {
    if t.fingerprint.None? then End(Ending(Failed, NoFingerprint))
    else if (t.worldRead && s.fingerprint == t.fingerprint) || s.continuations >= l.continuations then End(Ending(NeedsHuman, Looping))
    else Again(s.(continuations := s.continuations + 1, resumed := true,
                  fingerprint := if t.worldRead then t.fingerprint else None))
  }

  function AfterExit(l: Limits, cancel: Cancellation, s: State, t: Turn): Step {
    if t.unresolvedSync then End(Ending(NeedsHuman, UnresolvedSync))
    else if t.work.None? then End(Ending(Failed, WorkspaceUnreadable))
    else if Candidate(t) then HandOff(l, cancel, s, t)
    else if !t.declaration.Undeclared? then End(ClassifyDeclared(l, t, t.work.value))
    else if s.session.None? then End(ClassifyUndeclared(t.work.value, t.aheadAgain))
    else Unfinished(l, s, t)
  }

  function Crashed(l: Limits, cancel: Cancellation, s: State): Step {
    if s.session.Some? && Live(cancel, s.clock) && s.continuations < l.continuations then
      if Live(cancel, s.clock + 1) then Again(s.(continuations := s.continuations + 1, resumed := true, clock := s.clock + 2))
      else End(Ending(Failed, ModelTransport))
    else End(Ending(if Live(cancel, s.clock + 1) then NeedsHuman else Failed, ModelTransport))
  }

  function AfterCrash(l: Limits, cancel: Cancellation, s: State, t: Turn): Step {
    if t.served.Some? then Crashed(l, cancel, s.(availability := 0))
    else if Live(cancel, s.clock) && s.availability < l.availability then
      Again(s.(availability := s.availability + 1, resumed := s.resumed || s.session.Some?, clock := s.clock + 1))
    else if Live(cancel, s.clock + 1) then End(Ending(NeedsHuman, ProviderUnavailable))
    else Crashed(l, cancel, s.(clock := s.clock + 2))
  }

  /** What the child's output told the supervisor; the first session id is kept. */
  function Observed(s: State, t: Turn): State {
    s.(session := if s.session.Some? then s.session else t.served, exhausted := s.exhausted || t.exhausts, clock := s.clock + 1)
  }

  /** The stale declaration of the previous turn has to be gone before a child starts. */
  predicate Starts(s: State, t: Turn) {
    s.continuations == 0 || !t.staleKept
  }

  function Next(l: Limits, cancel: Cancellation, s: State, t: Turn): Step {
    if !Starts(s, t) then End(Ending(Failed, StaleDeclaration))
    else
      var o := Observed(s, t);
      if Live(cancel, s.clock) && o.exhausted && t.recorded then End(Ending(NeedsHuman, CapacityExhausted))
      else if t.crashes then AfterCrash(l, cancel, o, t)
      else AfterExit(l, cancel, o, t)
  }

  // ---- runs ----

  /** The states at the head of the loop in one run against the given turns. */
  ghost predicate IsRun(l: Limits, cancel: Cancellation, script: nat -> Turn, states: seq<State>) {
    && states != [] && states[0] == INITIAL
    && forall i: nat | i + 1 < |states| :: Next(l, cancel, states[i], script(i)) == Again(states[i + 1])
  }

  predicate WithinBudget(l: Limits, s: State) {
    s.continuations <= l.continuations && s.availability <= l.availability
  }

  lemma {:induction false} TurnDecides(l: Limits, cancel: Cancellation, o: State, t: Turn)
    ensures var d := DecisionOf(l, cancel, o, t); var v := Render(d, t.words);
            && (v.continueMsg != "" <==> d.Continues?) && (v.failReason != "" <==> d.Fails?)
            && (v.superseded <==> d.Supersedes?) && (v.pass <==> d.Passes?)
            && (d.Continues? ==> o.session.Some? && o.continuations < l.continuations)
  {
    RenderSays(DecisionOf(l, cancel, o, t), t.words);
    PlanIsAffordable(t.check, l.fixPr, Resumable(o.continuations, l.continuations, o.session.Some?, Live(cancel, o.clock + 1)));
  }

  /** Every further turn spends exactly one continuation, or exactly one
      availability retry and no continuation. */
  lemma {:induction false} TurnSpendsOne(l: Limits, cancel: Cancellation, s: State, t: Turn)
    requires WithinBudget(l, s) && Next(l, cancel, s, t).Again?
    ensures var s' := Next(l, cancel, s, t).state;
            && WithinBudget(l, s')
            && (|| (s'.continuations == s.continuations + 1 && (s'.availability == s.availability || s'.availability == 0))
                || (s'.continuations == s.continuations && s'.availability == s.availability + 1))
  {
    var o := Observed(s, t);
    TurnDecides(l, cancel, o, t);
  }

  // ---- the loop ----

  /** A step the loop takes: an ending, or the variables it goes on with. */
  function Taken(ending: Option<Ending>, s: State): Step {
    if ending.Some? then End(ending.value) else Again(s)
  }

  /** The loop's variables and the branches that update them. */
  class Supervisor {
    const limits: Limits
    const cancel: Cancellation
    var continuations: nat
    var availability: nat
    var session: Option<string>
    var exhausted: bool
    var fingerprint: Option<string>
    var resumed: bool
    var clock: nat

    function Vars(): State
      reads this
    {
      State(continuations, availability, session, exhausted, fingerprint, resumed, clock)
    }

    constructor (l: Limits, c: Cancellation)
      ensures limits == l && cancel == c && Vars() == INITIAL
    {
      limits, cancel := l, c;
      continuations, availability, clock := 0, 0, 0;
      session, fingerprint, exhausted, resumed := None, None, false, false;
    }

    /** Reads the context, as `ctx.Err() == nil` does. */
    method Alive() returns (live: bool)
      modifies this`clock
      ensures live == Live(cancel, old(clock)) && clock == old(clock) + 1
    {
      live := Live(cancel, clock);
      clock := clock + 1;
    }

    /** The child exited with an error. */
    method Crash(t: Turn) returns (ending: Option<Ending>)
      modifies this
      ensures Taken(ending, Vars()) == AfterCrash(limits, cancel, old(Vars()), t)
    {
      if t.served.None? {
        var live := Alive();
        if live && availability < limits.availability {
          availability := availability + 1;
          resumed := resumed || session.Some?;
          return None;
        }
        live := Alive();
        if live {
          return Some(Ending(NeedsHuman, ProviderUnavailable));
        }
      } else {
        availability := 0;
      }
      var alive := Alive();
      if session.Some? && alive && continuations < limits.continuations {
        continuations := continuations + 1;
        alive := Alive();
        if !alive {
          return Some(Ending(Failed, ModelTransport));
        }
        resumed := true;
        return None;
      }
      alive := Alive();
      return Some(Ending(if alive then NeedsHuman else Failed, ModelTransport));
    }

    /** The turn left work that may be handed off. */
    method Deliver(t: Turn) returns (ending: Option<Ending>)
      modifies this
      ensures Taken(ending, Vars()) == HandOff(limits, cancel, old(Vars()), t)
    {
      var alive := Alive();
      var stillAlive := Alive();
      var d := Plan(t.check, limits.fixPr, Resumable(continuations, limits.continuations, session.Some?, alive && stillAlive));
      var v := Render(d, t.words);
      if v.continueMsg != "" {
        continuations := continuations + 1;
        resumed := true;
        return None;
      }
      if v.failReason != "" {
        return Some(Ending(NeedsHuman, if v.forgeUnavailable then ForgeUnavailable else Rejected));
      }
      if v.superseded {
        return Some(Ending(NoChangeNeeded, Merged));
      }
      return Some(Ending(Verifying, Delivered));
    }

    /** The child exited cleanly. */
    method Exit(t: Turn) returns (ending: Option<Ending>)
      modifies this
      ensures Taken(ending, Vars()) == AfterExit(limits, cancel, old(Vars()), t)
    {
      if t.unresolvedSync {
        return Some(Ending(NeedsHuman, UnresolvedSync));
      }
      if t.work.None? {
        return Some(Ending(Failed, WorkspaceUnreadable));
      }
      if !t.declaration.Undeclared? {
        var result := ClassifyDeclared(limits, t, t.work.value);
        if result.phase.Verifying? {
          ending := Deliver(t);
          return;
        }
        return Some(result);
      }
      if t.work.value.Committed? && (t.ahead.None? || t.ahead.value > 0) {
        ending := Deliver(t);
        return;
      }
      if session.None? {
        return Some(ClassifyUndeclared(t.work.value, t.aheadAgain));
      }
      if t.fingerprint.None? {
        return Some(Ending(Failed, NoFingerprint));
      }
      if t.worldRead && fingerprint.Some? && fingerprint == t.fingerprint {
        return Some(Ending(NeedsHuman, Looping));
      }
      if continuations >= limits.continuations {
        return Some(Ending(NeedsHuman, Looping));
      }
      continuations := continuations + 1;
      fingerprint := if t.worldRead then t.fingerprint else None;
      resumed := true;
      return None;
    }

    /** One iteration of the loop: `started` says that a child was started. */
    method Iterate(t: Turn) returns (ending: Option<Ending>, started: bool)
      modifies this
      ensures Taken(ending, Vars()) == Next(limits, cancel, old(Vars()), t)
      ensures started == Starts(old(Vars()), t)
    {
      if continuations > 0 && t.staleKept {
        return Some(Ending(Failed, StaleDeclaration)), false;
      }
      started := true;
      if session.None? {
        session := t.served;
      }
      exhausted := exhausted || t.exhausts;
      var alive := Alive();
      assert Vars() == Observed(old(Vars()), t);
      if alive && exhausted && t.recorded {
        ending := Some(Ending(NeedsHuman, CapacityExhausted));
      } else if t.crashes {
        ending := Crash(t);
      } else {
        ending := Exit(t);
      }
    }
  }

  /** The supervisor loop. */
  method Supervise(l: Limits, cancel: Cancellation, script: nat -> Turn)
    returns (ending: Ending, started: nat, ghost states: seq<State>)
    ensures IsRun(l, cancel, script, states)
    ensures Next(l, cancel, states[|states| - 1], script(|states| - 1)) == End(ending)
    ensures started == |states| - if Starts(states[|states| - 1], script(|states| - 1)) then 0 else 1
    ensures started <= (l.continuations + 1) * (l.availability + 1)
  {
    var supervisor := new Supervisor(l, cancel);
    started := 0;
    states := [INITIAL];
    while true
      invariant fresh(supervisor) && supervisor.limits == l && supervisor.cancel == cancel
      invariant IsRun(l, cancel, script, states) && started == |states| - 1
      invariant states[started] == supervisor.Vars() && WithinBudget(l, supervisor.Vars())
      decreases l.continuations - supervisor.continuations, l.availability - supervisor.availability
    {
      ghost var before := supervisor.Vars();
      var t := script(started);
      var stop, ran := supervisor.Iterate(t);
      if stop.Some? {
        ChildrenAreBounded(l, cancel, script, states);
        return stop.value, if ran then started + 1 else started, states;
      }
      TurnSpendsOne(l, cancel, before, t);
      states := states + [supervisor.Vars()];
      started := started + 1;
    }
  }

  // ---- the two budgets ----

  lemma {:induction false} SpentSoFar(l: Limits, cancel: Cancellation, script: nat -> Turn, states: seq<State>, i: nat)
    requires IsRun(l, cancel, script, states) && i < |states|
    ensures WithinBudget(l, states[i])
    ensures i <= states[i].continuations * (l.availability + 1) + states[i].availability
  {
    if i > 0 {
      SpentSoFar(l, cancel, script, states, i - 1);
      assert Next(l, cancel, states[i - 1], script(i - 1)) == Again(states[i]);
      TurnSpendsOne(l, cancel, states[i - 1], script(i - 1));
      OneTurnCosts(i - 1, states[i - 1].continuations, states[i - 1].availability,
                   states[i].continuations, states[i].availability, l.availability + 1);
    }
  }

  lemma {:induction false} OneTurnCosts(i: nat, c: nat, a: nat, c': nat, a': nat, m: nat)
    requires i <= c * m + a && a < m
    requires c' == c + 1 || (c' == c && a' == a + 1)
    ensures i + 1 <= c' * m + a'
  {
    assert (c + 1) * m == c * m + m;
  }

  /** No run starts more children than the two budgets allow together, although
      a crash that served a session refills the availability budget. */
  lemma {:induction false} ChildrenAreBounded(l: Limits, cancel: Cancellation, script: nat -> Turn, states: seq<State>)
    requires IsRun(l, cancel, script, states)
    ensures |states| <= (l.continuations + 1) * (l.availability + 1)
  {
    var n, m := |states| - 1, l.availability + 1;
    SpentSoFar(l, cancel, script, states, n);
    MultiplyKeepsOrder(states[n].continuations, l.continuations, m);
    assert (l.continuations + 1) * m == l.continuations * m + m;
  }

  lemma {:induction false} MultiplyKeepsOrder(a: nat, b: nat, m: nat)
    requires a <= b
    ensures a * m <= b * m
  {
  }

  /** The provider refuses every attempt but each last one, which crashes after
      serving a session. */
  function Outage(l: Limits): nat -> Turn {
    (i: nat) => Turn(false, if i % (l.availability + 1) == l.availability then Some(['s']) else None, false, false, true, false, None,
                     Undeclared, None, None, Err(()), EnvelopeIdentity, _ => "", None, false)
  }

  function InOutage(l: Limits, i: nat): State {
    var c := i / (l.availability + 1);
    State(c, i % (l.availability + 1), if c > 0 then Some(['s']) else None, false, None, c > 0, ClockInOutage(l, i))
  }

  function ClockInOutage(l: Limits, i: nat): nat {
    if i == 0 then 0 else ClockInOutage(l, i - 1) + if (i - 1) % (l.availability + 1) == l.availability then 3 else 2
  }

  lemma {:induction false} OutageGoesOn(l: Limits, i: nat)
    requires i % (l.availability + 1) == l.availability ==> i / (l.availability + 1) < l.continuations
    ensures Next(l, None, InOutage(l, i), Outage(l)(i)) == Again(InOutage(l, i + 1))
  {
    Successor(i, l.availability + 1);
  }

  lemma {:induction false} OutageEnds(l: Limits, i: nat)
    requires i % (l.availability + 1) == l.availability && i / (l.availability + 1) == l.continuations
    ensures Starts(InOutage(l, i), Outage(l)(i)) && Next(l, None, InOutage(l, i), Outage(l)(i)).End?
  {
  }

  function OutageStates(l: Limits, n: nat): seq<State> {
    seq(n, i requires 0 <= i => InOutage(l, i))
  }

  /** The bound is exact: an outage makes the run start that many children. */
  lemma {:induction false} BoundIsReached(l: Limits)
    ensures var n := (l.continuations + 1) * (l.availability + 1);
            var states := OutageStates(l, n);
            && IsRun(l, None, Outage(l), states)
            && Starts(states[n - 1], Outage(l)(n - 1))
            && Next(l, None, states[n - 1], Outage(l)(n - 1)).End?
  {
    var m := l.availability + 1;
    var n := (l.continuations + 1) * m;
    OutageIsRun(l, m, n);
    QuotientBelow(n - 1, l.continuations, m);
    OutageEnds(l, n - 1);
  }

  lemma {:induction false} OutageIsRun(l: Limits, m: nat, n: nat)
    requires m == l.availability + 1 && n == (l.continuations + 1) * m && n > 0
    ensures IsRun(l, None, Outage(l), OutageStates(l, n))
  {
    var states := OutageStates(l, n);
    assert states[0] == INITIAL by {
      EuclidUnique(0, m, 0, 0);
    }
    forall i: nat | i + 1 < |states|
      ensures Next(l, None, states[i], Outage(l)(i)) == Again(states[i + 1])
    {
      QuotientBelow(i, l.continuations, m);
      OutageGoesOn(l, i);
    }
  }

  lemma {:induction false} Successor(i: nat, m: nat)
    requires m > 0
    ensures if i % m == m - 1 then (i + 1) / m == i / m + 1 && (i + 1) % m == 0
            else (i + 1) / m == i / m && (i + 1) % m == i % m + 1
  {
    var q, r := i / m, i % m;
    assert i == q * m + r;
    if r == m - 1 {
      assert i + 1 == (q + 1) * m + 0;
      EuclidUnique(i + 1, m, q + 1, 0);
    } else {
      EuclidUnique(i + 1, m, q, r + 1);
    }
  }

  lemma {:induction false} EuclidUnique(i: nat, m: nat, q: nat, r: nat)
    requires m > 0 && r < m && i == q * m + r
    ensures i / m == q && i % m == r
  {
    var d := i / m - q;
    assert i == (i / m) * m + i % m;
    assert d * m == r - i % m;
    assert d >= 1 ==> d * m >= m;
    assert d <= -1 ==> d * m + m <= 0;
  }

  lemma {:induction false} QuotientBelow(i: nat, c: nat, m: nat)
    requires m > 0
    ensures i < (c + 1) * m ==> i / m <= c
    ensures i + 1 == (c + 1) * m ==> i / m == c && i % m == m - 1
    ensures i + 1 < (c + 1) * m && i % m == m - 1 ==> i / m < c
  {
    var q, r := i / m, i % m;
    assert i == q * m + r;
    assert (c + 1) * m == c * m + m;
    if q > c {
      MultiplyKeepsOrder(c + 1, q, m);
    }
    if i + 1 == (c + 1) * m {
      EuclidUnique(i, m, c, m - 1);
    }
    if r == m - 1 && q == c {
      assert i + 1 == (c + 1) * m;
    }
  }

  // ---- the session ----

  /** The first session id that any of the first `n` attempts served. */
  function FirstServed(script: nat -> Turn, n: nat): Option<string> {
    if n == 0 then None
    else if FirstServed(script, n - 1).Some? then FirstServed(script, n - 1)
    else script(n - 1).served
  }

  /** Every child that is told to go on resumes one and the same conversation,
      the first one that was served, and every continuation is told to go on. */
  lemma {:induction false} ResumesTheFirstSession(l: Limits, cancel: Cancellation, script: nat -> Turn, states: seq<State>, i: nat)
    requires IsRun(l, cancel, script, states) && i < |states|
    ensures states[i].session == FirstServed(script, i)
    ensures states[i].resumed ==> states[i].session.Some?
    ensures states[i].continuations > 0 ==> states[i].resumed
  {
    if i > 0 {
      ResumesTheFirstSession(l, cancel, script, states, i - 1);
      assert Next(l, cancel, states[i - 1], script(i - 1)) == Again(states[i]);
      TurnKeepsSession(l, cancel, states[i - 1], script(i - 1));
    }
  }

  lemma {:induction false} TurnKeepsSession(l: Limits, cancel: Cancellation, s: State, t: Turn)
    requires Next(l, cancel, s, t).Again?
    ensures var s' := Next(l, cancel, s, t).state;
            && s'.session == Observed(s, t).session
            && (s'.resumed ==> s.resumed || s'.session.Some?)
            && (s'.continuations == s.continuations || s'.resumed)
            && (s.resumed ==> s'.resumed)
  {
    var o := Observed(s, t);
    TurnDecides(l, cancel, o, t);
  }

  // ---- the Verifying ending ----

  /** The exhaustion signal was raised, its evidence is there and the context is live. */
  predicate IsExhausted(cancel: Cancellation, s: State, t: Turn) {
    Live(cancel, s.clock) && (s.exhausted || t.exhausts) && t.recorded
  }

  /** The turn is judged by what it left behind. */
  predicate IsJudged(cancel: Cancellation, s: State, t: Turn) {
    && Starts(s, t) && !IsExhausted(cancel, s, t)
    && !t.crashes && !t.unresolvedSync && t.work.Some?
  }

  /** Commits reached the run branch between the two reads of a turn that has
      neither declared an outcome nor a session to resume. */
  predicate LateCommit(s: State, t: Turn) {
    && t.declaration.Undeclared? && t.work == Some(Committed) && Observed(s, t).session.None?
    && t.ahead == Some(0) && t.aheadAgain.Some? && t.aheadAgain.value > 0
  }

  /** Exactly when the run ends as Verifying: the pre-handoff check passed, or
      the commit arrived between the two branch reads and no check was made. */
  lemma {:induction false} VerifyingExactly(l: Limits, cancel: Cancellation, s: State, t: Turn)
    ensures (Next(l, cancel, s, t).End? && Next(l, cancel, s, t).ending.phase.Verifying?) <==>
            && IsJudged(cancel, s, t)
            && ((Candidate(t) && Plan(t.check, l.fixPr, true).Passes?) || LateCommit(s, t))
  {
    var o := Observed(s, t);
    TurnDecides(l, cancel, o, t);
    assert Plan(t.check, l.fixPr, true).Passes? == Plan(t.check, l.fixPr, false).Passes?;
  }

  /** The unchecked ending is reachable from the start of a run. */
  lemma {:induction false} UncheckedVerifyingIsReachable(l: Limits)
    ensures exists t: Turn :: Next(l, None, INITIAL, t) == End(Ending(Verifying, Delivered)) && !Plan(t.check, l.fixPr, true).Passes?
  {
    var t := Turn(false, None, false, false, false, false, Some(Committed), Undeclared, Some(0), Some(1), Err(()), EnvelopeIdentity,
                  _ => "", None, true);
    assert Next(l, None, INITIAL, t) == End(Ending(Verifying, Delivered)) && !Plan(t.check, l.fixPr, true).Passes?;
  }

  /** With agreeing branch reads, a resolve-issue run with a trusted identity
      ends as Verifying only on one reviewable, published pull request whose
      body meets both contracts. */
  lemma {:induction false} VerifyingIsReviewable(cfg: Config, w: World, l: Limits, cancel: Cancellation, s: State, t: Turn)
    requires TrustedSourceIssue(cfg).Some? && l.fixPr == IsFixPrRun(cfg) && t.check == CheckHandoff(cfg, w)
    requires t.ahead == t.aheadAgain
    requires Next(l, cancel, s, t).End? && Next(l, cancel, s, t).ending.phase.Verifying?
    ensures PinnedCriterionSet(cfg).Ok? && w.listing.Ok? && HeadPublished(w)
    ensures exists pr :: ReviewableHead(cfg.base, w.listing.value, pr) && BodyContracts(PinnedCriterionSet(cfg).value, w, pr.body)
  {
    VerifyingExactly(l, cancel, s, t);
    ResolveIssuePassesExactly(cfg, w, t.words, 0, 1, true, true);
    RenderSays(Plan(CheckHandoff(cfg, w), IsFixPrRun(cfg), Resumable(0, 1, true, true)), t.words);
  }

  /** Exactly when the run ends as needing no change: the pinned pull request
      merged, or the declared claim was checked on an untouched workspace. */
  lemma {:induction false} NoChangeExactly(l: Limits, cancel: Cancellation, s: State, t: Turn)
    ensures (Next(l, cancel, s, t).End? && Next(l, cancel, s, t).ending.phase.NoChangeNeeded?) <==>
            && IsJudged(cancel, s, t)
            && (|| (Candidate(t) && Plan(t.check, l.fixPr, true).Supersedes?)
                || (t.declaration.NoChange? && t.work == Some(Untouched) && ClaimStands(l.checksClaim, t.claim)))
  {
    var o := Observed(s, t);
    TurnDecides(l, cancel, o, t);
    assert Plan(t.check, l.fixPr, true).Supersedes? == Plan(t.check, l.fixPr, false).Supersedes?;
  }

  /** The turn ends the run on the coordinator's own claim that no change is needed. */
  predicate EndsOnClaim(l: Limits, cancel: Cancellation, s: State, t: Turn) {
    Next(l, cancel, s, t) == End(Ending(NoChangeNeeded, Declared))
  }

  /** A fix-pr run ends on its claim only over a settled pull request exactly when
      its mode is spelled in lower case. */
  lemma {:induction false} NoChangeIsVerifiedExactly(cfg: Config, continuations: nat, availability: nat)
    requires IsFixPrRun(cfg)
    ensures var l := LimitsOf(cfg, continuations, availability);
            (forall cancel: Cancellation, s: State, t: Turn | EndsOnClaim(l, cancel, s, t) :: IsSettledPr(t.claim))
            <==> cfg.mode == "fix-pr"
  {
    var l := LimitsOf(cfg, continuations, availability);
    if cfg.mode == "fix-pr" {
      forall cancel: Cancellation, s: State, t: Turn | EndsOnClaim(l, cancel, s, t)
        ensures IsSettledPr(t.claim)
      {
        ClaimWasChecked(l, cancel, s, t);
      }
    } else {
      var t := UncheckedClaim();
      ConflictIsUnsettled();
      UncheckedClaimEnds(l);
      assert EndsOnClaim(l, None, INITIAL, t) && !IsSettledPr(t.claim);
    }
  }

  lemma {:induction false} ClaimWasChecked(l: Limits, cancel: Cancellation, s: State, t: Turn)
    requires l.checksClaim && EndsOnClaim(l, cancel, s, t)
    ensures IsSettledPr(t.claim)
  {
    NoChangeExactly(l, cancel, s, t);
    if Candidate(t) {
      DeclaredIsNoCandidate(l, cancel, s, t);
    }
  }

  lemma {:induction false} DeclaredIsNoCandidate(l: Limits, cancel: Cancellation, s: State, t: Turn)
    requires IsJudged(cancel, s, t) && Candidate(t)
    ensures Next(l, cancel, s, t) != End(Ending(NoChangeNeeded, Declared))
  {
    assert Next(l, cancel, s, t) == HandOff(l, cancel, Observed(s, t), t);
  }

  /** A first turn that leaves nothing and claims that nothing is needed, while
      the pinned pull request conflicts. */
  function UncheckedClaim(): Turn {
    Turn(false, None, false, false, false, false, Some(Untouched), NoChange, Some(0), Some(0), Ok(CONFLICTING), EnvelopeIdentity,
         _ => "", None, true)
  }

  lemma {:induction false} UncheckedClaimEnds(l: Limits)
    requires !l.checksClaim
    ensures EndsOnClaim(l, None, INITIAL, UncheckedClaim())
  {
  }

  /** A crash ends the run only when its budget is spent, which hands it over, or
      when the run was cancelled, which fails it. */
  lemma {:induction false} CrashEndsOnlyOnSpentBudget(l: Limits, cancel: Cancellation, s: State, t: Turn)
    requires Starts(s, t) && t.crashes && !IsExhausted(cancel, s, t)
    requires Next(l, cancel, s, t).End?
    ensures var e := Next(l, cancel, s, t).ending;
            || (e == Ending(NeedsHuman, ProviderUnavailable) && t.served.None? && s.availability >= l.availability)
            || (e == Ending(NeedsHuman, ModelTransport) && t.served.Some? && s.continuations >= l.continuations)
            || (e == Ending(Failed, ModelTransport) && cancel.Some? && cancel.value <= s.clock + 4)
  {
  }

  // ---- how each turn ends or goes on ----

  /** What is decided before the turn is judged: a declaration that could not be
      removed, a recorded exhaustion, an unresolved sync, an unreadable workspace. */
  lemma {:induction false} UnjudgedEndsExactly(l: Limits, cancel: Cancellation, s: State, t: Turn)
    ensures s.continuations > 0 && t.staleKept <==> Next(l, cancel, s, t) == End(Ending(Failed, StaleDeclaration))
    ensures (s.continuations == 0 || !t.staleKept) && (cancel.None? || s.clock < cancel.value) && (s.exhausted || t.exhausts) && t.recorded
            <==> Next(l, cancel, s, t) == End(Ending(NeedsHuman, CapacityExhausted))
    ensures (s.continuations == 0 || !t.staleKept) && !IsExhausted(cancel, s, t) && !t.crashes && t.unresolvedSync
            <==> Next(l, cancel, s, t) == End(Ending(NeedsHuman, UnresolvedSync))
    ensures (s.continuations == 0 || !t.staleKept) && !IsExhausted(cancel, s, t) && !t.crashes && !t.unresolvedSync && t.work.None?
            <==> Next(l, cancel, s, t) == End(Ending(Failed, WorkspaceUnreadable))
  {
    TurnDecides(l, cancel, Observed(s, t), t);
  }

  /** A judged turn that declared something else than delivered changes ends the
      run: a decision or an external block hands it over, a claim that no change is
      needed stands on an untouched workspace, and everything else fails. */
  lemma {:induction false} DeclaredEndsExactly(l: Limits, cancel: Cancellation, s: State, t: Turn)
    requires IsJudged(cancel, s, t) && !t.declaration.Undeclared?
    requires t.declaration.Changes? ==> t.work != Some(Committed) || t.ahead == Some(0)
    ensures Next(l, cancel, s, t) == End(
              match t.declaration
              case NeedsDecision => Ending(NeedsHuman, Declared)
              case BlockedExternal => Ending(NeedsHuman, Declared)
              case NoChange => if t.work == Some(Untouched) && ClaimStands(l.checksClaim, t.claim) then Ending(NoChangeNeeded, Declared)
                               else Ending(Failed, Rejected)
              case Changes => Ending(Failed, Rejected)
              case _ => Ending(Failed, InvalidDeclaration))
  {
  }

  /** The state in which the run goes on after one more continuation: the first
      session is kept, and the next child is told to resume it. */
  function Continued(s: State, t: Turn, fingerprint: Option<string>, more: nat): State {
    State(s.continuations + 1, s.availability, if s.session.Some? then s.session else t.served, s.exhausted || t.exhausts,
          fingerprint, true, s.clock + 1 + more)
  }

  /** A judged turn that delivered commits follows the plan: a repair continues the
      session, a superseded run needs no change, a failure hands it over, and a pass
      is the Verifying ending. A repair is planned only with a session, budget and a
      context that is live after the plan's reads. */
  lemma {:induction false} DeliveredFollowsThePlan(l: Limits, cancel: Cancellation, s: State, t: Turn)
    requires IsJudged(cancel, s, t) && t.work == Some(Committed) && t.ahead != Some(0)
    requires t.declaration.Undeclared? || t.declaration.Changes?
    ensures var d := Plan(t.check, l.fixPr, (s.session.Some? || t.served.Some?) && (cancel.None? || s.clock + 2 < cancel.value)
                                            && s.continuations < l.continuations);
            Next(l, cancel, s, t) ==
              match d
              case Passes => End(Ending(Verifying, Delivered))
              case Continues(_) => Again(Continued(s, t, s.fingerprint, 2))
              case Fails(_, forgeUnavailable) => End(Ending(NeedsHuman, if forgeUnavailable then ForgeUnavailable else Rejected))
              case Supersedes => End(Ending(NoChangeNeeded, Merged))
  {
    TurnDecides(l, cancel, Observed(s, t), t);
  }

  /** A judged turn that declared nothing, delivered nothing and has a session goes
      on exactly when its fingerprint is known, budget is left, and the workspace is
      not readably the one it went on from before; it goes on remembering what it
      left. Otherwise it stops as looping, or fails for want of a fingerprint. */
  lemma {:induction false} UnfinishedGoesOnExactly(l: Limits, cancel: Cancellation, s: State, t: Turn)
    requires IsJudged(cancel, s, t) && t.declaration.Undeclared? && (t.work != Some(Committed) || t.ahead == Some(0))
    requires s.session.Some? || t.served.Some?
    ensures Next(l, cancel, s, t).Again? <==>
            t.fingerprint.Some? && s.continuations < l.continuations && !(t.worldRead && s.fingerprint == t.fingerprint)
    ensures Next(l, cancel, s, t) ==
            if t.fingerprint.None? then End(Ending(Failed, NoFingerprint))
            else if s.continuations >= l.continuations || (t.worldRead && s.fingerprint == t.fingerprint) then End(Ending(NeedsHuman, Looping))
            else Again(Continued(s, t, if t.worldRead then t.fingerprint else None, 0))
  {
  }

  /** Without a session such a turn ends the run: it failed, unless commits have
      reached the run branch by the second read. */
  lemma {:induction false} SessionlessEndsExactly(l: Limits, cancel: Cancellation, s: State, t: Turn)
    requires IsJudged(cancel, s, t) && t.declaration.Undeclared? && (t.work != Some(Committed) || t.ahead == Some(0))
    requires s.session.None? && t.served.None?
    ensures Next(l, cancel, s, t) == End(
              if t.work != Some(Committed) then Ending(Failed, Incomplete)
              else if t.aheadAgain.None? || t.aheadAgain == Some(0) then Ending(Failed, Rejected)
              else Ending(Verifying, Delivered))
  {
  }

  /** A crash before any session was served is retried within the availability
      budget, and one that served a session is continued within the other and
      refills the first; a spent budget hands the run over, and a cancelled run fails. */
  lemma {:induction false} CrashGoesOnExactly(l: Limits, cancel: Cancellation, s: State, t: Turn)
    requires Starts(s, t) && t.crashes && !IsExhausted(cancel, s, t)
    ensures t.served.None? ==>
            Next(l, cancel, s, t) ==
            if s.availability < l.availability && (cancel.None? || s.clock + 1 < cancel.value)
            then Again(State(s.continuations, s.availability + 1, s.session, s.exhausted || t.exhausts, s.fingerprint,
                             s.resumed || s.session.Some?, s.clock + 2))
            else End(if cancel.None? || s.clock + 2 < cancel.value then Ending(NeedsHuman, ProviderUnavailable)
                     else Ending(Failed, ModelTransport))
    ensures t.served.Some? ==>
            Next(l, cancel, s, t) ==
            if cancel.Some? && cancel.value <= s.clock + 2 then End(Ending(Failed, ModelTransport))
            else if s.continuations < l.continuations then Again(Continued(s.(availability := 0), t, s.fingerprint, 2))
            else End(Ending(NeedsHuman, ModelTransport))
  {
  }

  /** A turn of a run whose session leaves unfinished work, each time another world. */
  ghost predicate LeavesAnotherWorld(script: nat -> Turn, i: nat) {
    var t := script(i);
    && !t.staleKept && t.served.Some? && !t.exhausts && !t.crashes && !t.unresolvedSync
    && t.work == Some(Dirty) && t.declaration.Undeclared? && t.fingerprint.Some?
    && script(i).fingerprint != script(i + 1).fingerprint
  }

  /** Unfinished work is continued as long as the worlds change: such a run starts
      exactly one child more than the continuation budget, and then stops as looping. */
  lemma {:induction false} ChangingWorldsAreContinued(l: Limits, script: nat -> Turn, states: seq<State>)
    requires forall i: nat :: LeavesAnotherWorld(script, i)
    requires IsRun(l, None, script, states) && Next(l, None, states[|states| - 1], script(|states| - 1)).End?
    ensures |states| == l.continuations + 1
    ensures Next(l, None, states[|states| - 1], script(|states| - 1)) == End(Ending(NeedsHuman, Looping))
  {
    var n := |states| - 1;
    ChangingWorldsSoFar(l, script, states, n);
    assert LeavesAnotherWorld(script, n);
    UnfinishedGoesOnExactly(l, None, states[n], script(n));
  }

  lemma {:induction false} ChangingWorldsSoFar(l: Limits, script: nat -> Turn, states: seq<State>, i: nat)
    requires forall k: nat :: LeavesAnotherWorld(script, k)
    requires IsRun(l, None, script, states) && i < |states|
    ensures states[i].continuations == i <= l.continuations && !states[i].exhausted && script(i).fingerprint != states[i].fingerprint
  {
    assert LeavesAnotherWorld(script, i);
    if i > 0 {
      ChangingWorldsSoFar(l, script, states, i - 1);
      assert LeavesAnotherWorld(script, i - 1);
      assert Next(l, None, states[i - 1], script(i - 1)) == Again(states[i]);
      UnfinishedGoesOnExactly(l, None, states[i - 1], script(i - 1));
    }
  }

  // ---- provider exhaustion ----

  /** The turns' exhaustion flags come from one tap that lives through the run:
      turn i puts it through actions(i), raises the signal only by calling a stop
      function, and then asks whether an exhaustion is recorded. */
  ghost predicate FromTap(
    script: nat -> Turn, read: SessionTap.Reader, actions: nat -> seq<SessionTap.Action>,
    taps: nat -> SessionTap.Tap, begun: nat -> set<nat>) {
    && taps(0) == SessionTap.FRESH && begun(0) == {}
    && forall i: nat :: IsTapTurn(script(i), read, actions(i), taps(i), begun(i), taps(i + 1), begun(i + 1))
  }

  predicate IsTapTurn(
    t: Turn, read: SessionTap.Reader, actions: seq<SessionTap.Action>,
    before: SessionTap.Tap, begun: set<nat>, after: SessionTap.Tap, begun': set<nat>) {
    && SessionTap.Disciplined(read, before, begun, actions)
    && after == SessionTap.Execute(read, before, actions) && begun' == SessionTap.BegunThrough(read, before, begun, actions)
    && (t.exhausts ==> after.kills != []) && (t.recorded <==> after.exhaustion.Some?)
  }

  lemma {:induction false} TapStaysSound(
    script: nat -> Turn, read: SessionTap.Reader, actions: nat -> seq<SessionTap.Action>,
    taps: nat -> SessionTap.Tap, begun: nat -> set<nat>, i: nat)
    requires FromTap(script, read, actions, taps, begun)
    ensures SessionTap.StopInv(taps(i), begun(i))
  {
    if i > 0 {
      TapStaysSound(script, read, actions, taps, begun, i - 1);
      var k: nat := i - 1;
      assert IsTapTurn(script(k), read, actions(k), taps(k), begun(k), taps(k + 1), begun(k + 1));
      SessionTap.ExecutionKeepsStopInv(read, taps(k), begun(k), actions(k));
    }
  }

  /** A turn that raises the signal has its evidence on record. */
  ghost predicate IsBacked(script: nat -> Turn) {
    forall i: nat :: script(i).exhausts ==> script(i).recorded
  }

  lemma {:induction false} TapBacksTheSignal(
    script: nat -> Turn, read: SessionTap.Reader, actions: nat -> seq<SessionTap.Action>,
    taps: nat -> SessionTap.Tap, begun: nat -> set<nat>)
    requires FromTap(script, read, actions, taps, begun)
    ensures IsBacked(script)
  {
    forall i: nat
      ensures script(i).exhausts ==> script(i).recorded
    {
      TapStaysSound(script, read, actions, taps, begun, i + 1);
      assert IsTapTurn(script(i), read, actions(i), taps(i), begun(i), taps(i + 1), begun(i + 1));
    }
  }

  /** With the tap's flags, a raised exhaustion signal stops the run, unless the
      run was cancelled first. */
  lemma {:induction false} ExhaustionIsFinal(
    l: Limits, cancel: Cancellation, script: nat -> Turn, states: seq<State>, i: nat,
    read: SessionTap.Reader, actions: nat -> seq<SessionTap.Action>, taps: nat -> SessionTap.Tap, begun: nat -> set<nat>)
    requires FromTap(script, read, actions, taps, begun)
    requires IsRun(l, cancel, script, states) && i + 1 < |states| && script(i).exhausts
    ensures cancel.Some? && cancel.value <= states[i].clock
  {
    TapBacksTheSignal(script, read, actions, taps, begun);
    BackedSignalIsFinal(l, cancel, script, states, i);
  }

  lemma {:induction false} BackedSignalIsFinal(l: Limits, cancel: Cancellation, script: nat -> Turn, states: seq<State>, i: nat)
    requires IsBacked(script) && IsRun(l, cancel, script, states) && i + 1 < |states| && script(i).exhausts
    ensures cancel.Some? && cancel.value <= states[i].clock
  {
    assert Next(l, cancel, states[i], script(i)) == Again(states[i + 1]);
  }

  /** A capacity ending is never invented: the last turn itself raised the signal. */
  lemma {:induction false} ExhaustionWasSeen(
    l: Limits, cancel: Cancellation, script: nat -> Turn, states: seq<State>,
    read: SessionTap.Reader, actions: nat -> seq<SessionTap.Action>, taps: nat -> SessionTap.Tap, begun: nat -> set<nat>)
    requires FromTap(script, read, actions, taps, begun)
    requires IsRun(l, cancel, script, states)
    requires Next(l, cancel, states[|states| - 1], script(|states| - 1)) == End(Ending(NeedsHuman, CapacityExhausted))
    ensures script(|states| - 1).exhausts
  {
    TapBacksTheSignal(script, read, actions, taps, begun);
    var n := |states| - 1;
    if states[n].exhausted {
      var k := FirstSignal(l, cancel, script, states, n);
      BackedSignalIsFinal(l, cancel, script, states, k);
      ClockGrows(l, cancel, script, states, k, n);
      assert false;
    }
  }

  lemma {:induction false} FirstSignal(l: Limits, cancel: Cancellation, script: nat -> Turn, states: seq<State>, i: nat) returns (k: nat)
    requires IsRun(l, cancel, script, states) && i < |states| && states[i].exhausted
    ensures k < i && script(k).exhausts
  {
    assert Next(l, cancel, states[i - 1], script(i - 1)) == Again(states[i]);
    ExhaustedComesFrom(l, cancel, states[i - 1], script(i - 1));
    if script(i - 1).exhausts {
      k := i - 1;
    } else {
      k := FirstSignal(l, cancel, script, states, i - 1);
    }
  }

  lemma {:induction false} ExhaustedComesFrom(l: Limits, cancel: Cancellation, s: State, t: Turn)
    requires Next(l, cancel, s, t).Again?
    ensures Next(l, cancel, s, t).state.exhausted == (s.exhausted || t.exhausts)
    ensures Next(l, cancel, s, t).state.clock >= s.clock
  {
  }

  lemma {:induction false} ClockGrows(l: Limits, cancel: Cancellation, script: nat -> Turn, states: seq<State>, i: nat, j: nat)
    requires IsRun(l, cancel, script, states) && i <= j < |states|
    ensures states[i].clock <= states[j].clock
    decreases j - i
  {
    if i < j {
      ClockGrows(l, cancel, script, states, i, j - 1);
      assert Next(l, cancel, states[j - 1], script(j - 1)) == Again(states[j]);
      ExhaustedComesFrom(l, cancel, states[j - 1], script(j - 1));
    }
  }

  // ---- loop detection ----

  /** The turn went on because of what it left in the workspace. */
  predicate LeftUnfinished(l: Limits, cancel: Cancellation, s: State, t: Turn) {
    IsJudged(cancel, s, t) && t.declaration.Undeclared? && !Candidate(t) && Next(l, cancel, s, t).Again?
  }

  lemma {:induction false} FingerprintIsKept(l: Limits, cancel: Cancellation, script: nat -> Turn, states: seq<State>, i: nat, j: nat)
    requires IsRun(l, cancel, script, states) && i <= j < |states|
    requires forall k: nat | i <= k < j :: !LeftUnfinished(l, cancel, states[k], script(k))
    ensures states[j].fingerprint == states[i].fingerprint
  {
    forall k: nat | i <= k < j
      ensures states[k].fingerprint == states[k + 1].fingerprint
    {
      StepKeepsFingerprint(l, cancel, script, states, k);
    }
    EqualThroughout(states, i, j);
  }

  lemma {:induction false} StepKeepsFingerprint(l: Limits, cancel: Cancellation, script: nat -> Turn, states: seq<State>, k: nat)
    requires IsRun(l, cancel, script, states) && k + 1 < |states| && !LeftUnfinished(l, cancel, states[k], script(k))
    ensures states[k].fingerprint == states[k + 1].fingerprint
  {
    assert Next(l, cancel, states[k], script(k)) == Again(states[k + 1]);
    TurnKeepsFingerprint(l, cancel, states[k], script(k));
  }

  lemma {:induction false} EqualThroughout(states: seq<State>, i: nat, j: nat)
    requires i <= j < |states|
    requires forall k: nat | i <= k < j :: states[k].fingerprint == states[k + 1].fingerprint
    ensures states[j].fingerprint == states[i].fingerprint
  {
    if i < j {
      EqualThroughout(states, i, j - 1);
      assert states[j - 1].fingerprint == states[j - 1 + 1].fingerprint;
    }
  }

  lemma {:induction false} TurnKeepsFingerprint(l: Limits, cancel: Cancellation, s: State, t: Turn)
    requires Next(l, cancel, s, t).Again? && !LeftUnfinished(l, cancel, s, t)
    ensures Next(l, cancel, s, t).state.fingerprint == s.fingerprint
  {
  }

  /** The run never goes on twice in a row from one and the same readable
      workspace state, whatever crashes and repairs lie in between. */
  lemma {:induction false} NoWorldIsRetried(l: Limits, cancel: Cancellation, script: nat -> Turn, states: seq<State>, i: nat, j: nat)
    requires IsRun(l, cancel, script, states) && i < j < |states| - 1
    requires LeftUnfinished(l, cancel, states[i], script(i)) && script(i).worldRead
    requires LeftUnfinished(l, cancel, states[j], script(j)) && script(j).worldRead
    requires forall k: nat | i < k < j :: !LeftUnfinished(l, cancel, states[k], script(k))
    ensures script(i).fingerprint != script(j).fingerprint
  {
    assert Next(l, cancel, states[i], script(i)) == Again(states[i + 1]);
    FingerprintIsKept(l, cancel, script, states, i + 1, j);
  }
}
