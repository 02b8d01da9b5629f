/** The pre-handoff check that guards the Verifying ending
    (cmd/courier-executor/main.go:1878-2502, 2563-2741, 3400-3726). */
module Handoff {
  import opened Options
  import opened Text
  import opened CriteriaPin
  import opened Policy

  /** The operator-pinned criterion envelope as the process environment carries it. */
  datatype Envelope = NoEnvelope | Undecodable | Decoded(pinned: CriterionSet)

  datatype Config = Config(mode: string, repo: string, ref: int, base: string, envelope: Envelope)

  /** A pull request that the forge lists for the run's head. */
  datatype Listed = Listed(number: int, open: bool, baseRef: string, draft: bool, body: string)

  /** A failed read, and whether it failed on a transient availability condition. */
  datatype ReadError = ReadError(transient: bool)

  /** The identity-checked listing: records of the run's own head, and whether
      any record claims the head selector from another repository. */
  datatype Listing = Listing(pulls: seq<Listed>, foreign: bool)

  /** The run's own commit, and what the remote branch advertises. */
  datatype Heads = Heads(local: string, remote: Option<string>)

  /** What the forge and the remote answer, and what the body validators say. */
  datatype World = World(
    listing: Result<Listing, ReadError>, heads: Result<Heads, ReadError>, pinnedMerged: Result<bool, ReadError>,
    linked: string -> bool, evidenced: string -> bool, citesMissingPath: string -> bool)

  // ---- identities ----

  function TrustedSourceIssue(cfg: Config): Option<SourceIssue> {
    if !EqualFold(cfg.mode, "resolve-issue") then None
    else match SplitOwnerRepo(cfg.repo)
      case None => None
      case Some((owner, name)) => if cfg.ref <= 0 then None else Some(SourceIssue(owner, name, cfg.ref))
  }

  predicate IsFixPrRun(cfg: Config) {
    EqualFold(cfg.mode, "fix-pr") && cfg.ref >= 1
  }

  /** What the run has to verify: its issue's linkage, its pinned pull request, or nothing. */
  datatype Kind = ForIssue(source: SourceIssue) | ForPr(number: int) | Unverified

  function KindOf(cfg: Config): Kind {
    match TrustedSourceIssue(cfg)
    case Some(source) => ForIssue(source)
    case None => if IsFixPrRun(cfg) then ForPr(cfg.ref) else Unverified
  }

  /** A trusted issue identity and a fix-pr assignment exclude each other. */
  lemma {:induction false} FixPrKind(cfg: Config)
    ensures IsFixPrRun(cfg) <==> KindOf(cfg).ForPr?
  {
    assert |Lower("resolve-issue")| == 13 && |Lower("fix-pr")| == 6;
  }

  predicate SetMatchesSource(s: CriterionSet, source: SourceIssue) {
    EqualFold(s.issue.owner, source.owner) && EqualFold(s.issue.name, source.name) && s.issue.number == source.number
  }

  // ---- classifying the head's pull requests ----

  datatype Observation =
    | OpenPr(pr: Listed) | DraftPr(pr: Listed) | MissingPr | AmbiguousPr
    | ClosedOnlyPr(closed: seq<Listed>) | ForeignPr | WrongBasePr

  predicate OnOtherBase(base: string, pull: Listed) {
    pull.open && pull.baseRef != base
  }

  predicate OpenHere(base: string, pull: Listed) {
    pull.open && pull.baseRef == base
  }

  function OpensHere(base: string, pulls: seq<Listed>): seq<Listed> {
    if pulls == [] then []
    else OpensHere(base, pulls[..|pulls| - 1]) + if OpenHere(base, pulls[|pulls| - 1]) then [pulls[|pulls| - 1]] else []
  }

  function Closed(pulls: seq<Listed>): seq<Listed> {
    if pulls == [] then []
    else Closed(pulls[..|pulls| - 1]) + if pulls[|pulls| - 1].open then [] else [pulls[|pulls| - 1]]
  }

  /** The classification, fail-closed worlds first. */
  function Classify(base: string, listing: Listing): Observation {
    var opens := OpensHere(base, listing.pulls);
    if listing.foreign then ForeignPr
    else if exists i | 0 <= i < |listing.pulls| :: OnOtherBase(base, listing.pulls[i]) then WrongBasePr
    else if |opens| > 1 then AmbiguousPr
    else if |opens| == 1 then if opens[0].draft then DraftPr(opens[0]) else OpenPr(opens[0])
    else if Closed(listing.pulls) != [] then ClosedOnlyPr(Closed(listing.pulls))
    else MissingPr
  }

  /** The four lists after the given pull requests. */
  ghost predicate AreTallied(
    base: string, pulls: seq<Listed>, opens: seq<Listed>, drafts: seq<Listed>, wrongBases: seq<Listed>, closed: seq<Listed>) {
    && AreSorted(OpensHere(base, pulls), opens, drafts) && closed == Closed(pulls)
    && (wrongBases != [] <==> exists k | 0 <= k < |pulls| :: OnOtherBase(base, pulls[k]))
  }

  /** The open pull requests, ready ones and drafts apart; their order matters
      only to the one that is alone. */
  ghost predicate AreSorted(here: seq<Listed>, opens: seq<Listed>, drafts: seq<Listed>) {
    && |here| == |opens| + |drafts| && (|here| == 1 ==> here == opens + drafts)
    && (forall k | 0 <= k < |opens| :: !opens[k].draft) && (forall k | 0 <= k < |drafts| :: drafts[k].draft)
  }

  lemma {:induction false} SortedOneMore(here: seq<Listed>, opens: seq<Listed>, drafts: seq<Listed>, pull: Listed)
    requires AreSorted(here, opens, drafts)
    ensures if pull.draft then AreSorted(here + [pull], opens, drafts + [pull]) else AreSorted(here + [pull], opens + [pull], drafts)
  {
  }

  lemma {:induction false} TallyOne(
    base: string, pulls: seq<Listed>, opens: seq<Listed>, drafts: seq<Listed>, wrongBases: seq<Listed>, closed: seq<Listed>,
    pull: Listed)
    requires AreTallied(base, pulls, opens, drafts, wrongBases, closed)
    ensures var more := pulls + [pull];
            if OnOtherBase(base, pull) then AreTallied(base, more, opens, drafts, wrongBases + [pull], closed)
            else if !pull.open then AreTallied(base, more, opens, drafts, wrongBases, closed + [pull])
            else if pull.draft then AreTallied(base, more, opens, drafts + [pull], wrongBases, closed)
            else AreTallied(base, more, opens + [pull], drafts, wrongBases, closed)
  {
    OneMore(base, pulls, pull);
    SortedOneMore(OpensHere(base, pulls), opens, drafts, pull);
    OtherBaseOnceMore(base, pulls, pull);
  }

  lemma {:induction false} OneMore(base: string, pulls: seq<Listed>, pull: Listed)
    ensures OpensHere(base, pulls + [pull]) == if OpenHere(base, pull) then OpensHere(base, pulls) + [pull] else OpensHere(base, pulls)
    ensures Closed(pulls + [pull]) == if pull.open then Closed(pulls) else Closed(pulls) + [pull]
  {
    assert (pulls + [pull])[..|pulls|] == pulls;
  }

  lemma {:induction false} OtherBaseOnceMore(base: string, pulls: seq<Listed>, pull: Listed)
    ensures var more := pulls + [pull];
            (exists k | 0 <= k < |more| :: OnOtherBase(base, more[k]))
            <==> (exists k | 0 <= k < |pulls| :: OnOtherBase(base, pulls[k])) || OnOtherBase(base, pull)
  {
    var more := pulls + [pull];
    assert more[|pulls|] == pull && forall k | 0 <= k < |pulls| :: more[k] == pulls[k];
  }

  /** The source's scan: four lists filled in one pass over the listing. */
  method ObserveRunBranch(base: string, listing: Listing) returns (o: Observation)
    ensures o == Classify(base, listing)
  {
    if listing.foreign {
      return ForeignPr;
    }
    var pulls := listing.pulls;
    var opens: seq<Listed>, drafts: seq<Listed>, wrongBases: seq<Listed>, closed: seq<Listed> := [], [], [], [];
    for i := 0 to |pulls|
      invariant AreTallied(base, pulls[..i], opens, drafts, wrongBases, closed)
    {
      var pull := pulls[i];
      TallyOne(base, pulls[..i], opens, drafts, wrongBases, closed, pull);
      assert pulls[..i + 1] == pulls[..i] + [pull];
      if pull.open && pull.baseRef != base {
        wrongBases := wrongBases + [pull];
      } else if pull.open && !pull.draft {
        opens := opens + [pull];
      } else if pull.open {
        drafts := drafts + [pull];
      } else {
        closed := closed + [pull];
      }
    }
    assert pulls[..|pulls|] == pulls;
    if |wrongBases| > 0 { return WrongBasePr; }
    if |opens| + |drafts| > 1 { return AmbiguousPr; }
    if |opens| == 1 { return OpenPr(opens[0]); }
    if |drafts| == 1 { return DraftPr(drafts[0]); }
    if |closed| > 0 { return ClosedOnlyPr(closed); }
    return MissingPr;
  }

  // ---- the check ----

  datatype Outcome =
    | Clear
    | Judged(pr: Listed, linkageFails: bool, criteriaFail: bool, pathsMissing: bool)
    | Unpublished | DraftOpen(pr: Listed) | Missing | Ambiguous | ClosedOnly | Foreign | OtherBase
    | PinnedMerged | PinnedMissing | PinnedMismatch(pr: Listed) | PinnedDraft(pr: Listed)

  datatype Check = Checked(outcome: Outcome) | EnvelopeIdentity | EnvelopeDecode | ReadFailed(error: ReadError)

  /** Settled before the forge is read: the pinned set, or the envelope's fault. */
  function PinnedCriterionSet(cfg: Config): Result<Option<CriterionSet>, Check> {
    if cfg.envelope.NoEnvelope? then Ok(None)
    else match KindOf(cfg)
      case ForPr(_) => Err(EnvelopeIdentity)
      case Unverified => Err(EnvelopeIdentity)
      case ForIssue(source) =>
        if cfg.envelope.Undecodable? then Err(EnvelopeDecode)
        else if !SetMatchesSource(cfg.envelope.pinned, source) then Err(EnvelopeIdentity)
        else Ok(Some(cfg.envelope.pinned))
  }

  /** Both body contracts, judged on the same live body. */
  function JudgeBody(pinned: Option<CriterionSet>, w: World, pr: Listed): Outcome {
    var enforced := pinned.Some? && pinned.value.criteria != [];
    var linkageFails := !w.linked(pr.body);
    var criteriaFail := enforced && !w.evidenced(pr.body);
    var pathsMissing := enforced && w.evidenced(pr.body) && w.citesMissingPath(pr.body);
    if !linkageFails && !enforced then Clear else Judged(pr, linkageFails, criteriaFail, pathsMissing)
  }

  predicate Published(heads: Heads) {
    heads.remote == Some(heads.local)
  }

  function WhenPublished(w: World, outcome: Outcome): Check {
    match w.heads
    case Err(e) => ReadFailed(e)
    case Ok(heads) => if Published(heads) then Checked(outcome) else Checked(Unpublished)
  }

  predicate Carries(pulls: seq<Listed>, number: int) {
    exists i | 0 <= i < |pulls| :: pulls[i].number == number
  }

  /** The fix-pr run verifies exactly its pinned pull request. */
  function CheckFixPr(number: int, w: World, o: Observation): Check {
    match o
    case OpenPr(pr) => if pr.number != number then Checked(PinnedMismatch(pr)) else WhenPublished(w, Clear)
    case WrongBasePr => Checked(OtherBase)
    case AmbiguousPr => Checked(Ambiguous)
    case ClosedOnlyPr(closed) =>
      if !Carries(closed, number) then Checked(if closed == [] then PinnedMissing else PinnedMismatch(closed[0]))
      else (match w.pinnedMerged
            case Err(e) => ReadFailed(e)
            case Ok(merged) => Checked(if merged then PinnedMerged else ClosedOnly))
    case ForeignPr => Checked(Foreign)
    case DraftPr(pr) => Checked(if pr.number != number then PinnedMismatch(pr) else PinnedDraft(pr))
    case MissingPr => Checked(PinnedMissing)
  }

  function CheckResolveIssue(pinned: Option<CriterionSet>, w: World, o: Observation): Check {
    match o
    case OpenPr(pr) => WhenPublished(w, JudgeBody(pinned, w, pr))
    case DraftPr(pr) => WhenPublished(w, DraftOpen(pr))
    case AmbiguousPr => Checked(Ambiguous)
    case ClosedOnlyPr(_) => Checked(ClosedOnly)
    case ForeignPr => Checked(Foreign)
    case WrongBasePr => Checked(OtherBase)
    case MissingPr => WhenPublished(w, Missing)
  }

  /** The observation, once the envelope is settled. */
  function CheckKind(kind: Kind, base: string, pinned: Option<CriterionSet>, w: World): Check {
    if kind.Unverified? then Checked(Clear)
    else match w.listing
      case Err(e) => ReadFailed(e)
      case Ok(listing) =>
        var o := Classify(base, listing);
        if kind.ForIssue? then CheckResolveIssue(pinned, w, o) else CheckFixPr(kind.number, w, o)
  }

  function CheckPinned(pinned: Result<Option<CriterionSet>, Check>, kind: Kind, base: string, w: World): Check {
    match pinned
    case Err(fault) => fault
    case Ok(set') => CheckKind(kind, base, set', w)
  }

  /** checkHandoff. */
  function CheckHandoff(cfg: Config, w: World): Check {
    CheckPinned(PinnedCriterionSet(cfg), KindOf(cfg), cfg.base, w)
  }

  // ---- the verdict ----

  datatype Instruction = Reverify | ReadyDraft | OpenPullRequest | RepairBody | RepairLinkage | RepairCriteria

  /** What a text is about; the source has one text per topic. */
  datatype Topic =
    | EnvelopeMismatch | EnvelopeFault | ForgeDown | PinnedUnread | LinkageUnread
    | AmbiguousHead | ClosedHead | ForeignHead | OtherBaseHead | UnpublishedHead
    | PinnedAbsent | PinnedOther | PinnedIsDraft | UnsettledPr
    | DraftLeft | NoneOpened | LinkageLeft | BodyLeft | CriteriaLeft
    | AskReverify | AskReady | AskOpen | AskLinkage | AskCriteria

  /** The word with which the text of a topic begins. */
  function Opening(topic: Topic): string {
    match topic
    case PinnedAbsent => "no"
    case OtherBaseHead => "an"
    case DraftLeft => "pull"
    case BodyLeft | CriteriaLeft => "incomplete"
    case AskReverify | AskReady | AskOpen | AskLinkage | AskCriteria => "Courier"
    case _ => "the"
  }

  /** How each text goes on: names, numbers and errors that the world supplies. */
  type Words = Topic -> string

  function Say(topic: Topic, words: Words): string {
    Opening(topic) + words(topic)
  }

  /** The instruction for the session; a body with both defects gets both texts. */
  function Ask(i: Instruction, words: Words): string {
    match i
    case Reverify => Say(AskReverify, words)
    case ReadyDraft => Say(AskReady, words)
    case OpenPullRequest => Say(AskOpen, words)
    case RepairLinkage => Say(AskLinkage, words)
    case RepairCriteria => Say(AskCriteria, words)
    case RepairBody => Say(AskLinkage, words) + " " + Say(AskCriteria, words)
  }

  datatype Decision = Passes | Continues(i: Instruction) | Fails(topic: Topic, forgeUnavailable: bool) | Supersedes

  /** The verdict as the run loop reads it: it follows the first text that is not
      empty, then the flags, and treats nothing set as success. */
  datatype Verdict = Verdict(
    pass: bool, kind: Option<Instruction>, continueMsg: string, failReason: string, superseded: bool, forgeUnavailable: bool)

  function Render(d: Decision, words: Words): Verdict {
    match d
    case Passes => Verdict(true, None, "", "", false, false)
    case Continues(i) => Verdict(false, Some(i), Ask(i, words), "", false, false)
    case Fails(topic, forgeUnavailable) => Verdict(false, None, "", Say(topic, words), false, forgeUnavailable)
    case Supersedes => Verdict(false, None, "", "", true, false)
  }

  /** What a resumable session can repair, and with which instruction. */
  function Repair(outcome: Outcome): Option<Instruction> {
    match outcome
    case DraftOpen(_) => Some(ReadyDraft)
    case Missing => Some(OpenPullRequest)
    case Judged(_, linkageFails, criteriaFail, pathsMissing) =>
      if linkageFails && (criteriaFail || pathsMissing) then Some(RepairBody)
      else if linkageFails then Some(RepairLinkage)
      else if criteriaFail || pathsMissing then Some(RepairCriteria)
      else None
    case _ => None
  }

  /** What is said when nobody can repair the outcome any more. */
  function Unrepaired(outcome: Outcome): Topic {
    match outcome
    case DraftOpen(_) => DraftLeft
    case Missing => NoneOpened
    case Judged(_, linkageFails, criteriaFail, pathsMissing) =>
      if linkageFails && (criteriaFail || pathsMissing) then BodyLeft else if linkageFails then LinkageLeft else CriteriaLeft
    case _ => UnsettledPr
  }

  /** The decision on a finished check. */
  function Plan(check: Check, fixPr: bool, resumable: bool): Decision {
    match check
    case EnvelopeIdentity => Fails(EnvelopeMismatch, false)
    case EnvelopeDecode => Fails(EnvelopeFault, false)
    case ReadFailed(e) =>
      if resumable then Continues(Reverify)
      else if e.transient then Fails(ForgeDown, true)
      else Fails(if fixPr then PinnedUnread else LinkageUnread, false)
    case Checked(outcome) =>
      match outcome
      case Clear => Passes
      case PinnedMerged => Supersedes
      case Ambiguous => Fails(AmbiguousHead, false)
      case ClosedOnly => Fails(ClosedHead, false)
      case Foreign => Fails(ForeignHead, false)
      case OtherBase => Fails(OtherBaseHead, false)
      case Unpublished => Fails(UnpublishedHead, false)
      case PinnedMissing => Fails(PinnedAbsent, false)
      case PinnedMismatch(_) => Fails(PinnedOther, false)
      case PinnedDraft(_) => Fails(PinnedIsDraft, false)
      case _ =>
        if fixPr then Fails(UnsettledPr, false)
        else match Repair(outcome)
          case None => Passes
          case Some(i) => if resumable then Continues(i) else Fails(Unrepaired(outcome), false)
  }

  predicate Resumable(continuations: nat, max: nat, session: bool, live: bool) {
    session && live && continuations < max
  }

  /** applyHandoffPlan: `session` says that a session can be resumed, `live` that
      the run context was done neither when the plan was asked for nor after its reads. */
  function ApplyHandoffPlan(
    cfg: Config, w: World, words: Words, continuations: nat, max: nat, session: bool, live: bool): Verdict {
    Render(Plan(CheckHandoff(cfg, w), IsFixPrRun(cfg), Resumable(continuations, max, session, live)), words)
  }

  // ---- the no-change claim ----

  /** The pinned pull request as the forge reads it; `mergeable` may be unknown. */
  datatype PinnedRead = PinnedRead(merged: bool, state: string, mergeable: Option<bool>)

  /** The repair condition is met: nothing is left that could conflict. */
  predicate IsSettledPr(read: Result<PinnedRead, ()>) {
    read.Ok? && (read.value.merged || EqualFold(TrimSpace(read.value.state), "closed") || read.value.mergeable == Some(true))
  }

  predicate ChecksClaim(cfg: Config) {
    cfg.mode == "fix-pr" && cfg.ref >= 1
  }

  predicate ClaimStands(checks: bool, read: Result<PinnedRead, ()>) {
    checks ==> IsSettledPr(read)
  }

  /** verifyNoChangeClaim: the mode is compared as it is spelled. */
  method VerifyNoChangeClaim(cfg: Config, read: Result<PinnedRead, ()>) returns (stands: bool)
    ensures stands <==> ClaimStands(ChecksClaim(cfg), read)
    ensures stands <==>
            || cfg.mode != "fix-pr" || cfg.ref < 1
            || (read.Ok? && (|| read.value.merged || EqualFold(TrimSpace(read.value.state), "closed")
                             || (read.value.mergeable.Some? && read.value.mergeable.value)))
  {
    if cfg.mode != "fix-pr" || cfg.ref < 1 { return true; }
    if read.Err? { return false; }
    if read.value.merged || EqualFold(TrimSpace(read.value.state), "closed") { return true; }
    if read.value.mergeable.None? { return false; }
    return read.value.mergeable.value;
  }

  /** For a fix-pr run an accepted claim means a settled pull request exactly
      when the mode is spelled in lower case. */
  lemma {:induction false} ClaimIsVerifiedExactly(cfg: Config)
    requires IsFixPrRun(cfg)
    ensures (forall read: Result<PinnedRead, ()> :: ClaimStands(ChecksClaim(cfg), read) ==> IsSettledPr(read)) <==> cfg.mode == "fix-pr"
  {
    if cfg.mode != "fix-pr" {
      ConflictIsUnsettled();
      assert ClaimStands(ChecksClaim(cfg), Ok(CONFLICTING));
    }
  }

  const CONFLICTING := PinnedRead(false, "open", Some(false))

  lemma {:induction false} ConflictIsUnsettled()
    ensures !IsSettledPr(Ok(CONFLICTING))
  {
    var t := TrimSpace("open");
    assert |t| <= 4 && |Lower("closed")| == 6;
  }

  /** The failing family is not empty: "Fix-PR" is a fix-pr run to the handoff,
      and its claim stands against a conflicting pull request. */
  lemma {:induction false} FoldedModeIsUnchecked(cfg: Config)
    requires cfg.mode == "Fix-PR" && cfg.ref >= 1
    ensures IsFixPrRun(cfg) && ClaimStands(ChecksClaim(cfg), Ok(CONFLICTING)) && !IsSettledPr(Ok(CONFLICTING))
  {
    ConflictIsUnsettled();
    FoldedSpelling();
  }

  lemma {:induction false} FoldedSpelling()
    ensures EqualFold("Fix-PR", "fix-pr") && "Fix-PR" != "fix-pr"
  {
    assert "Fix-PR"[0] != "fix-pr"[0];
    assert Lower("Fix-PR") == Lower("fix-pr");
  }

  // ---- soundness ----

  function Flags(v: Verdict): nat {
    (if v.pass then 1 else 0) + (if v.continueMsg != "" then 1 else 0) + (if v.failReason != "" then 1 else 0)
    + (if v.superseded then 1 else 0)
  }

  lemma {:induction false} SpeaksUp(topic: Topic, words: Words)
    ensures Say(topic, words) != ""
  {
    assert |Opening(topic)| > 0;
  }

  lemma {:induction false} AsksSomething(i: Instruction, words: Words)
    ensures Ask(i, words) != ""
  {
    SpeaksUp(AskReverify, words);
    SpeaksUp(AskReady, words);
    SpeaksUp(AskOpen, words);
    SpeaksUp(AskLinkage, words);
    SpeaksUp(AskCriteria, words);
  }

  /** The texts carry the decision: whatever they go on to say, the one that is
      not empty is the one that was decided. */
  lemma {:induction false} RenderSays(d: Decision, words: Words)
    ensures var v := Render(d, words);
            && (v.pass <==> d.Passes?) && (v.continueMsg != "" <==> d.Continues?)
            && (v.failReason != "" <==> d.Fails?) && (v.superseded <==> d.Supersedes?)
            && Flags(v) == 1
  {
    if d.Continues? {
      AsksSomething(d.i, words);
    } else if d.Fails? {
      SpeaksUp(d.topic, words);
    }
  }

  /** Each verdict says exactly one thing, so the loop never falls through to a
      success that nobody decided; a continuation is only ever asked of a
      resumable run with budget left, and a transient forge failure ends the run
      only where no retry is possible. */
  lemma {:induction false} ExactlyOneVerdict(cfg: Config, w: World, words: Words, continuations: nat, max: nat, session: bool, live: bool)
    ensures var v := ApplyHandoffPlan(cfg, w, words, continuations, max, session, live);
            && Flags(v) == 1 && (v.forgeUnavailable ==> v.failReason != "")
            && (v.continueMsg != "" ==> session && live && continuations < max)
            && (v.forgeUnavailable ==> !(session && live && continuations < max))
  {
    var d := Plan(CheckHandoff(cfg, w), IsFixPrRun(cfg), Resumable(continuations, max, session, live));
    RenderSays(d, words);
    PlanIsAffordable(CheckHandoff(cfg, w), IsFixPrRun(cfg), Resumable(continuations, max, session, live));
  }

  lemma {:induction false} PlanIsAffordable(check: Check, fixPr: bool, resumable: bool)
    ensures var d := Plan(check, fixPr, resumable);
            (d.Continues? ==> resumable) && (d.Fails? && d.forgeUnavailable ==> !resumable)
  {
  }

  /** The one world in which a head is reviewable: no foreign claim, no open pull
      request on another base, and exactly one open one here, not a draft. */
  ghost predicate ReviewableHead(base: string, listing: Listing, pr: Listed) {
    && !listing.foreign
    && (forall i | 0 <= i < |listing.pulls| :: !OnOtherBase(base, listing.pulls[i]))
    && HasSoleOpen(base, listing.pulls, pr)
    && !pr.draft
  }

  predicate SoleOpen(base: string, pulls: seq<Listed>, k: nat) {
    k < |pulls| && OpenHere(base, pulls[k]) && forall i | 0 <= i < |pulls| && i != k :: !OpenHere(base, pulls[i])
  }

  lemma {:induction false} NoneOpen(base: string, pulls: seq<Listed>)
    ensures OpensHere(base, pulls) == [] <==> forall i | 0 <= i < |pulls| :: !OpenHere(base, pulls[i])
    decreases |pulls|
  {
    if pulls != [] {
      NoneOpen(base, pulls[..|pulls| - 1]);
      assert forall i | 0 <= i < |pulls| - 1 :: pulls[i] == pulls[..|pulls| - 1][i];
    }
  }

  ghost predicate HasSoleOpen(base: string, pulls: seq<Listed>, pr: Listed) {
    exists k: nat :: SoleOpen(base, pulls, k) && pulls[k] == pr
  }

  /** One more pull request that is not open here changes nothing. */
  lemma {:induction false} NotOpenIsIgnored(base: string, front: seq<Listed>, last: Listed, pr: Listed)
    requires !OpenHere(base, last)
    ensures HasSoleOpen(base, front + [last], pr) <==> HasSoleOpen(base, front, pr)
  {
    var pulls := front + [last];
    assert pulls[|front|] == last && forall i | 0 <= i < |front| :: pulls[i] == front[i];
    assert forall k: nat :: SoleOpen(base, pulls, k) <==> SoleOpen(base, front, k);
  }

  /** One more that is open here is the sole one exactly when none was before. */
  lemma {:induction false} OpenIsCounted(base: string, front: seq<Listed>, last: Listed, pr: Listed)
    requires OpenHere(base, last)
    ensures HasSoleOpen(base, front + [last], pr) <==> OpensHere(base, front) == [] && last == pr
  {
    var pulls, n := front + [last], |front|;
    NoneOpen(base, front);
    assert pulls[n] == last && forall i | 0 <= i < n :: pulls[i] == front[i];
    assert forall k: nat | SoleOpen(base, pulls, k) :: k == n;
    if OpensHere(base, front) == [] {
      assert SoleOpen(base, pulls, n);
    }
  }

  /** Counting the open pull requests to one finds the sole open one. */
  lemma {:induction false} OneOpen(base: string, pulls: seq<Listed>, pr: Listed)
    ensures OpensHere(base, pulls) == [pr] <==> HasSoleOpen(base, pulls, pr)
    decreases |pulls|
  {
    if pulls != [] {
      var front, last := pulls[..|pulls| - 1], pulls[|pulls| - 1];
      assert pulls == front + [last];
      OneOpen(base, front, pr);
      if OpenHere(base, last) {
        OpenIsCounted(base, front, last, pr);
        assert OpensHere(base, pulls) == OpensHere(base, front) + [last];
        assert |OpensHere(base, pulls)| == |OpensHere(base, front)| + 1 && OpensHere(base, pulls)[|OpensHere(base, front)|] == last;
      } else {
        NotOpenIsIgnored(base, front, last, pr);
        assert OpensHere(base, pulls) == OpensHere(base, front);
      }
    }
  }

  lemma {:induction false} OpenMeansReviewable(base: string, listing: Listing, pr: Listed)
    ensures Classify(base, listing) == OpenPr(pr) <==> ReviewableHead(base, listing, pr)
  {
    OneOpen(base, listing.pulls, pr);
    var opens := OpensHere(base, listing.pulls);
    if Classify(base, listing) == OpenPr(pr) {
      assert opens == [pr];
    }
  }

  /** The run's commit is what the remote advertises. */
  predicate HeadPublished(w: World) {
    w.heads.Ok? && Published(w.heads.value)
  }

  predicate BodyContracts(pinned: Option<CriterionSet>, w: World, body: string) {
    && w.linked(body)
    && (pinned.Some? && pinned.value.criteria != [] ==> w.evidenced(body) && !w.citesMissingPath(body))
  }

  /** The check passes for an issue exactly on a reviewable, published head
      whose body meets both contracts. */
  lemma {:induction false} IssueCheckPasses(source: SourceIssue, base: string, pinned: Option<CriterionSet>, w: World, resumable: bool)
    ensures Plan(CheckKind(ForIssue(source), base, pinned, w), false, resumable).Passes? <==>
            && w.listing.Ok? && HeadPublished(w)
            && exists pr :: ReviewableHead(base, w.listing.value, pr) && BodyContracts(pinned, w, pr.body)
  {
    if w.listing.Ok? {
      ReviewableUnique(base, w.listing.value);
    }
  }

  /** ... and for a pinned pull request exactly when the reviewable head is that one. */
  lemma {:induction false} PrCheckPasses(number: int, base: string, pinned: Option<CriterionSet>, w: World, resumable: bool)
    ensures Plan(CheckKind(ForPr(number), base, pinned, w), true, resumable).Passes? <==>
            && w.listing.Ok? && HeadPublished(w)
            && exists pr :: ReviewableHead(base, w.listing.value, pr) && pr.number == number
  {
    if w.listing.Ok? {
      ReviewableUnique(base, w.listing.value);
    }
  }

  predicate LinkageFails(w: World, body: string) {
    !w.linked(body)
  }

  predicate CriteriaFail(pinned: Option<CriterionSet>, w: World, body: string) {
    pinned.Some? && pinned.value.criteria != [] && (!w.evidenced(body) || w.citesMissingPath(body))
  }

  /** One continuation repairs everything: it names exactly the body contracts that fail. */
  lemma {:induction false} RepairNamesEveryDefect(source: SourceIssue, base: string, pinned: Option<CriterionSet>, w: World, pr: Listed)
    requires w.listing.Ok? && HeadPublished(w) && ReviewableHead(base, w.listing.value, pr)
    ensures var d := Plan(CheckKind(ForIssue(source), base, pinned, w), false, true);
            && (d == Continues(RepairBody) <==> LinkageFails(w, pr.body) && CriteriaFail(pinned, w, pr.body))
            && (d == Continues(RepairLinkage) <==> LinkageFails(w, pr.body) && !CriteriaFail(pinned, w, pr.body))
            && (d == Continues(RepairCriteria) <==> !LinkageFails(w, pr.body) && CriteriaFail(pinned, w, pr.body))
            && (d == Passes <==> BodyContracts(pinned, w, pr.body))
  {
    OpenMeansReviewable(base, w.listing.value, pr);
  }

  lemma {:induction false} ReviewableUnique(base: string, listing: Listing)
    ensures forall pr :: ReviewableHead(base, listing, pr) <==> Classify(base, listing) == OpenPr(pr)
  {
    forall pr
      ensures ReviewableHead(base, listing, pr) <==> Classify(base, listing) == OpenPr(pr)
    {
      OpenMeansReviewable(base, listing, pr);
    }
  }

  /** Exactly when a resolve-issue run with a trusted identity may hand off. */
  lemma {:induction false} ResolveIssuePassesExactly(cfg: Config, w: World, words: Words, continuations: nat, max: nat, session: bool, live: bool)
    requires TrustedSourceIssue(cfg).Some?
    ensures ApplyHandoffPlan(cfg, w, words, continuations, max, session, live).pass <==>
            && PinnedCriterionSet(cfg).Ok? && w.listing.Ok? && HeadPublished(w)
            && exists pr :: ReviewableHead(cfg.base, w.listing.value, pr)
                            && BodyContracts(PinnedCriterionSet(cfg).value, w, pr.body)
  {
    RenderSays(Plan(CheckHandoff(cfg, w), IsFixPrRun(cfg), Resumable(continuations, max, session, live)), words);
    FixPrKind(cfg);
    if PinnedCriterionSet(cfg).Ok? {
      IssueCheckPasses(TrustedSourceIssue(cfg).value, cfg.base, PinnedCriterionSet(cfg).value, w,
                       Resumable(continuations, max, session, live));
    }
  }

  /** A fix-pr run hands off exactly its pinned pull request. */
  lemma {:induction false} FixPrPassesExactly(cfg: Config, w: World, words: Words, continuations: nat, max: nat, session: bool, live: bool)
    requires IsFixPrRun(cfg)
    ensures ApplyHandoffPlan(cfg, w, words, continuations, max, session, live).pass <==>
            && cfg.envelope.NoEnvelope? && w.listing.Ok? && HeadPublished(w)
            && exists pr :: ReviewableHead(cfg.base, w.listing.value, pr) && pr.number == cfg.ref
  {
    RenderSays(Plan(CheckHandoff(cfg, w), IsFixPrRun(cfg), Resumable(continuations, max, session, live)), words);
    FixPrKind(cfg);
    if cfg.envelope.NoEnvelope? {
      PrCheckPasses(cfg.ref, cfg.base, None, w, Resumable(continuations, max, session, live));
    }
  }

  /** Only a merged pinned pull request supersedes a run, and only a fix-pr run:
      its head carries no open pull request and the forge says the pinned one merged. */
  lemma {:induction false} SupersededMeansMerged(cfg: Config, w: World, words: Words, continuations: nat, max: nat, session: bool, live: bool)
    requires ApplyHandoffPlan(cfg, w, words, continuations, max, session, live).superseded
    ensures IsFixPrRun(cfg) && w.pinnedMerged == Ok(true) && w.listing.Ok?
    ensures Classify(cfg.base, w.listing.value).ClosedOnlyPr? && Carries(Closed(w.listing.value.pulls), cfg.ref)
  {
    RenderSays(Plan(CheckHandoff(cfg, w), IsFixPrRun(cfg), Resumable(continuations, max, session, live)), words);
    FixPrKind(cfg);
    MergedPlan(PinnedCriterionSet(cfg), KindOf(cfg), cfg.base, w, IsFixPrRun(cfg), Resumable(continuations, max, session, live));
  }

  lemma {:induction false} MergedPlan(
    pinned: Result<Option<CriterionSet>, Check>, kind: Kind, base: string, w: World, fixPr: bool, resumable: bool)
    requires pinned.Err? ==> pinned.error.EnvelopeIdentity? || pinned.error.EnvelopeDecode?
    requires Plan(CheckPinned(pinned, kind, base, w), fixPr, resumable).Supersedes?
    ensures kind.ForPr? && w.pinnedMerged == Ok(true) && w.listing.Ok?
    ensures Classify(base, w.listing.value).ClosedOnlyPr? && Carries(Closed(w.listing.value.pulls), kind.number)
  {
    assert CheckPinned(pinned, kind, base, w) == Checked(PinnedMerged);
    MergedCheck(kind, base, pinned.value, w);
  }

  lemma {:induction false} MergedCheck(kind: Kind, base: string, pinned: Option<CriterionSet>, w: World)
    requires CheckKind(kind, base, pinned, w) == Checked(PinnedMerged)
    ensures kind.ForPr? && w.pinnedMerged == Ok(true) && w.listing.Ok?
    ensures Classify(base, w.listing.value).ClosedOnlyPr? && Carries(Closed(w.listing.value.pulls), kind.number)
  {
  }

  // ---- every world, over the listing alone ----

  lemma {:induction false} SeveralOpen(base: string, pulls: seq<Listed>)
    ensures |OpensHere(base, pulls)| > 1 <==>
            exists i: nat, j: nat :: i < j < |pulls| && OpenHere(base, pulls[i]) && OpenHere(base, pulls[j])
    decreases |pulls|
  {
    if pulls != [] {
      var front, n := pulls[..|pulls| - 1], |pulls| - 1;
      SeveralOpen(base, front);
      NoneOpen(base, front);
      assert forall i | 0 <= i < n :: front[i] == pulls[i];
      if OpenHere(base, pulls[n]) && OpensHere(base, front) != [] {
        var i: nat :| i < n && OpenHere(base, front[i]);
        assert OpenHere(base, pulls[i]) && OpenHere(base, pulls[n]);
      }
      if i: nat, j: nat :| i < j < |pulls| && OpenHere(base, pulls[i]) && OpenHere(base, pulls[j]) {
        assert OpenHere(base, front[i]);
        assert j < n ==> OpenHere(base, front[j]);
      }
    }
  }

  lemma {:induction false} AllClosed(pulls: seq<Listed>)
    ensures Closed(pulls) == pulls <==> forall i | 0 <= i < |pulls| :: !pulls[i].open
    ensures |Closed(pulls)| <= |pulls|
    decreases |pulls|
  {
    if pulls != [] {
      var front, last := pulls[..|pulls| - 1], pulls[|pulls| - 1];
      AllClosed(front);
      assert pulls == front + [last];
      assert forall i | 0 <= i < |front| :: pulls[i] == front[i];
      if !last.open && Closed(pulls) == pulls {
        assert Closed(pulls)[..|front|] == Closed(front);
      }
    }
  }

  /** No foreign claim, and no open pull request on another base. */
  predicate IsTidy(base: string, listing: Listing) {
    !listing.foreign && forall i | 0 <= i < |listing.pulls| && listing.pulls[i].open :: listing.pulls[i].baseRef == base
  }

  ghost predicate AreSeveral(pulls: seq<Listed>) {
    exists i: nat, j: nat :: i < j < |pulls| && pulls[i].open && pulls[j].open
  }

  predicate AreClosed(pulls: seq<Listed>) {
    forall i | 0 <= i < |pulls| :: !pulls[i].open
  }

  /** Pull request `k` is open and all others are closed. */
  predicate IsAlone(pulls: seq<Listed>, k: nat) {
    k < |pulls| && pulls[k].open && forall i | 0 <= i < |pulls| && i != k :: !pulls[i].open
  }

  /** What each class means for the listing; together they are all listings. */
  lemma {:induction false} ClassifiesExactly(base: string, listing: Listing)
    ensures var o, pulls := Classify(base, listing), listing.pulls;
            && (o == ForeignPr <==> listing.foreign)
            && (o == WrongBasePr <==> !listing.foreign && exists i | 0 <= i < |pulls| :: pulls[i].open && pulls[i].baseRef != base)
            && (o == AmbiguousPr <==> IsTidy(base, listing) && AreSeveral(pulls))
            && (forall k: nat | IsTidy(base, listing) && IsAlone(pulls, k) :: o == if pulls[k].draft then DraftPr(pulls[k]) else OpenPr(pulls[k]))
            && (o.DraftPr? || o.OpenPr? ==> IsTidy(base, listing) && exists k: nat :: IsAlone(pulls, k))
            && (o.ClosedOnlyPr? <==> !listing.foreign && pulls != [] && AreClosed(pulls))
            && (o.ClosedOnlyPr? ==> o.closed == pulls)
            && (o == MissingPr <==> listing == Listing([], false))
  {
    var o, pulls := Classify(base, listing), listing.pulls;
    SeveralOpen(base, pulls);
    NoneOpen(base, pulls);
    AllClosed(pulls);
    assert IsTidy(base, listing) ==> forall i | 0 <= i < |pulls| :: OpenHere(base, pulls[i]) == pulls[i].open;
    assert IsTidy(base, listing) <==> !listing.foreign && forall i | 0 <= i < |pulls| :: !OnOtherBase(base, pulls[i]);
    forall k: nat | IsTidy(base, listing) && IsAlone(pulls, k)
      ensures OpensHere(base, pulls) == [pulls[k]]
    {
      assert SoleOpen(base, pulls, k);
      OneOpen(base, pulls, pulls[k]);
    }
    if o.DraftPr? || o.OpenPr? {
      assert OpensHere(base, pulls) == [o.pr];
      OneOpen(base, pulls, o.pr);
      var k: nat :| SoleOpen(base, pulls, k) && pulls[k] == o.pr;
      assert IsAlone(pulls, k);
    }
  }

  /** A read that failed is tried again in a resumable session; otherwise a
      transient failure is the forge's, and any other says what could not be read. */
  function Unread(e: ReadError, topic: Topic, resumable: bool): Decision {
    if resumable then Continues(Reverify) else if e.transient then Fails(ForgeDown, true) else Fails(topic, false)
  }

  /** Every decision of a resolve-issue run, by what the forge lists and the remote
      advertises. The repairs of the sole ready one are RepairNamesEveryDefect. */
  lemma {:induction false} IssueDecidesExactly(source: SourceIssue, base: string, pinned: Option<CriterionSet>, w: World, resumable: bool)
    ensures var d := Plan(CheckKind(ForIssue(source), base, pinned, w), false, resumable);
            && (w.listing.Err? ==> d == Unread(w.listing.error, LinkageUnread, resumable))
            && (w.listing.Ok? ==>
                  var l, pulls := w.listing.value, w.listing.value.pulls;
                  && (l.foreign ==> d == Fails(ForeignHead, false))
                  && (!l.foreign && !IsTidy(base, l) ==> d == Fails(OtherBaseHead, false))
                  && (IsTidy(base, l) && AreSeveral(pulls)
                      ==> d == Fails(AmbiguousHead, false))
                  && (!l.foreign && pulls != [] && AreClosed(pulls) ==> d == Fails(ClosedHead, false))
                  && (l == Listing([], false) ==>
                        d == AfterHeads(w, resumable, if resumable then Continues(OpenPullRequest) else Fails(NoneOpened, false)))
                  && (forall k: nat | IsTidy(base, l) && IsAlone(pulls, k) && pulls[k].draft ::
                        d == AfterHeads(w, resumable, if resumable then Continues(ReadyDraft) else Fails(DraftLeft, false)))
                  && (forall k: nat | IsTidy(base, l) && IsAlone(pulls, k) && !pulls[k].draft ::
                        d == AfterHeads(w, resumable, BodyDecision(pinned, w, pulls[k].body, resumable))))
  {
    if w.listing.Ok? {
      var o := Classify(base, w.listing.value);
      ClassifiesExactly(base, w.listing.value);
      IssueDecides(pinned, w, o, resumable);
    }
  }

  lemma {:induction false} IssueDecides(pinned: Option<CriterionSet>, w: World, o: Observation, resumable: bool)
    ensures Plan(CheckResolveIssue(pinned, w, o), false, resumable) ==
            match o
            case ForeignPr => Fails(ForeignHead, false)
            case WrongBasePr => Fails(OtherBaseHead, false)
            case AmbiguousPr => Fails(AmbiguousHead, false)
            case ClosedOnlyPr(_) => Fails(ClosedHead, false)
            case MissingPr => AfterHeads(w, resumable, if resumable then Continues(OpenPullRequest) else Fails(NoneOpened, false))
            case DraftPr(_) => AfterHeads(w, resumable, if resumable then Continues(ReadyDraft) else Fails(DraftLeft, false))
            case OpenPr(pr) => AfterHeads(w, resumable, BodyDecision(pinned, w, pr.body, resumable))
  {
  }

  /** The remote has to advertise the run's own commit before anything is asked for. */
  function AfterHeads(w: World, resumable: bool, d: Decision): Decision {
    if w.heads.Err? then Unread(w.heads.error, LinkageUnread, resumable)
    else if w.heads.value.remote != Some(w.heads.value.local) then Fails(UnpublishedHead, false)
    else d
  }

  function BodyDecision(pinned: Option<CriterionSet>, w: World, body: string, resumable: bool): Decision {
    var linkage := !w.linked(body);
    var criteria := pinned.Some? && pinned.value.criteria != [] && (!w.evidenced(body) || w.citesMissingPath(body));
    if linkage && criteria then if resumable then Continues(RepairBody) else Fails(BodyLeft, false)
    else if linkage then if resumable then Continues(RepairLinkage) else Fails(LinkageLeft, false)
    else if criteria then if resumable then Continues(RepairCriteria) else Fails(CriteriaLeft, false)
    else Passes
  }

  /** All pull requests of the head are closed: the run is over if its own merged. */
  function ClosedDecision(number: int, w: World, pulls: seq<Listed>, resumable: bool): Decision {
    if forall i | 0 <= i < |pulls| :: pulls[i].number != number then Fails(PinnedOther, false)
    else if w.pinnedMerged.Err? then Unread(w.pinnedMerged.error, PinnedUnread, resumable)
    else if w.pinnedMerged.value then Supersedes else Fails(ClosedHead, false)
  }

  /** The sole open one has to be the pinned one, at the run's own commit. */
  function ReadyDecision(number: int, w: World, pr: Listed, resumable: bool): Decision {
    if pr.number != number then Fails(PinnedOther, false)
    else if w.heads.Err? then Unread(w.heads.error, PinnedUnread, resumable)
    else if w.heads.value.remote != Some(w.heads.value.local) then Fails(UnpublishedHead, false)
    else Passes
  }

  /** Every decision of a fix-pr run. Nothing is ever asked of its session but to
      read again. */
  lemma {:induction false} PrDecidesExactly(number: int, base: string, pinned: Option<CriterionSet>, w: World, resumable: bool)
    ensures var d := Plan(CheckKind(ForPr(number), base, pinned, w), true, resumable);
            && (w.listing.Err? ==> d == Unread(w.listing.error, PinnedUnread, resumable))
            && (w.listing.Ok? ==>
                  var l, pulls := w.listing.value, w.listing.value.pulls;
                  && (l.foreign ==> d == Fails(ForeignHead, false))
                  && (!l.foreign && !IsTidy(base, l) ==> d == Fails(OtherBaseHead, false))
                  && (IsTidy(base, l) && AreSeveral(pulls)
                      ==> d == Fails(AmbiguousHead, false))
                  && (l == Listing([], false) ==> d == Fails(PinnedAbsent, false))
                  && (!l.foreign && pulls != [] && AreClosed(pulls) ==>
                        d == ClosedDecision(number, w, pulls, resumable))
                  && (forall k: nat | IsTidy(base, l) && IsAlone(pulls, k) && pulls[k].draft ::
                        d == Fails(if pulls[k].number != number then PinnedOther else PinnedIsDraft, false))
                  && (forall k: nat | IsTidy(base, l) && IsAlone(pulls, k) && !pulls[k].draft ::
                        d == ReadyDecision(number, w, pulls[k], resumable)))
  {
    if w.listing.Ok? {
      var o := Classify(base, w.listing.value);
      ClassifiesExactly(base, w.listing.value);
      PrDecides(number, w, o, resumable);
    }
  }

  lemma {:induction false} PrDecides(number: int, w: World, o: Observation, resumable: bool)
    ensures Plan(CheckFixPr(number, w, o), true, resumable) ==
            match o
            case ForeignPr => Fails(ForeignHead, false)
            case WrongBasePr => Fails(OtherBaseHead, false)
            case AmbiguousPr => Fails(AmbiguousHead, false)
            case MissingPr => Fails(PinnedAbsent, false)
            case ClosedOnlyPr(closed) =>
              if closed == [] then Fails(PinnedAbsent, false) else ClosedDecision(number, w, closed, resumable)
            case DraftPr(pr) => Fails(if pr.number != number then PinnedOther else PinnedIsDraft, false)
            case OpenPr(pr) => ReadyDecision(number, w, pr, resumable)
  {
  }

  /** What a resolve-issue run with a settled envelope asks of its session: a pull
      request exactly where none exists on a published head, readiness exactly of a
      sole draft on one, and another look exactly where a read that was needed
      failed; and each of them exactly within a live session and its budget. */
  lemma {:induction false} AsksExactly(cfg: Config, w: World, words: Words, continuations: nat, max: nat, session: bool, live: bool)
    requires TrustedSourceIssue(cfg).Some? && PinnedCriterionSet(cfg).Ok?
    ensures var v := ApplyHandoffPlan(cfg, w, words, continuations, max, session, live);
            var may, published := session && live && continuations < max, w.heads.Ok? && w.heads.value.remote == Some(w.heads.value.local);
            && (v.kind == Some(OpenPullRequest) <==> may && w.listing == Ok(Listing([], false)) && published)
            && (v.kind == Some(ReadyDraft) <==> may && w.listing.Ok? && HasSoleDraft(cfg.base, w.listing.value) && published)
            && (v.kind == Some(Reverify) <==> may && (w.listing.Err? || (w.heads.Err? && IsHandable(cfg.base, w.listing.value))))
  {
    var resumable := Resumable(continuations, max, session, live);
    FixPrKind(cfg);
    IssueAsks(TrustedSourceIssue(cfg).value, cfg.base, PinnedCriterionSet(cfg).value, w, resumable);
    RenderAsks(Plan(CheckKind(KindOf(cfg), cfg.base, PinnedCriterionSet(cfg).value, w), false, resumable), words);
  }

  lemma {:induction false} RenderAsks(d: Decision, words: Words)
    ensures Render(d, words).kind == if d.Continues? then Some(d.i) else None
  {
  }

  lemma {:induction false} IssueAsks(source: SourceIssue, base: string, pinned: Option<CriterionSet>, w: World, resumable: bool)
    ensures var d := Plan(CheckKind(ForIssue(source), base, pinned, w), false, resumable);
            && (d == Continues(OpenPullRequest) <==> resumable && w.listing == Ok(Listing([], false)) && HeadPublished(w))
            && (d == Continues(ReadyDraft) <==> resumable && w.listing.Ok? && HasSoleDraft(base, w.listing.value) && HeadPublished(w))
            && (d == Continues(Reverify) <==> resumable && (w.listing.Err? || (w.heads.Err? && IsHandable(base, w.listing.value))))
  {
    if w.listing.Ok? {
      var o := Classify(base, w.listing.value);
      ListingAsks(base, w.listing.value);
      IssueDecides(pinned, w, o, resumable);
    }
  }

  lemma {:induction false} ListingAsks(base: string, l: Listing)
    ensures var o := Classify(base, l);
            && (o == MissingPr <==> l == Listing([], false))
            && (o.DraftPr? <==> HasSoleDraft(base, l))
            && (o == MissingPr || o.DraftPr? || o.OpenPr? <==> IsHandable(base, l))
  {
    ClassifiesExactly(base, l);
  }

  ghost predicate HasSoleDraft(base: string, l: Listing) {
    IsTidy(base, l) && exists k: nat :: IsAlone(l.pulls, k) && l.pulls[k].draft
  }

  /** Nothing in the listing stands against a handoff of the head. */
  ghost predicate IsHandable(base: string, l: Listing) {
    l == Listing([], false) || (IsTidy(base, l) && exists k: nat :: IsAlone(l.pulls, k))
  }

  /** Which envelope is taken for the pinned set: none, or one that decodes to a set
      on the issue that a resolve-issue run names. */
  lemma {:induction false} EnvelopeExactly(cfg: Config)
    ensures PinnedCriterionSet(cfg) == Ok(None) <==> cfg.envelope.NoEnvelope?
    ensures forall set' :: PinnedCriterionSet(cfg) == Ok(Some(set')) <==>
              && cfg.envelope == Decoded(set') && EqualFold(cfg.mode, "resolve-issue") && cfg.ref > 0
              && SplitOwnerRepo(cfg.repo).Some? && set'.issue.number == cfg.ref
              && EqualFold(set'.issue.owner, SplitOwnerRepo(cfg.repo).value.0) && EqualFold(set'.issue.name, SplitOwnerRepo(cfg.repo).value.1)
    ensures PinnedCriterionSet(cfg) == Err(EnvelopeDecode) <==>
              cfg.envelope.Undecodable? && EqualFold(cfg.mode, "resolve-issue") && cfg.ref > 0 && SplitOwnerRepo(cfg.repo).Some?
  {
    FixPrKind(cfg);
  }

  /** A pull request is asked for only where the forge confirmed that none exists and
      the head is published; a failed read is never taken for a missing pull request;
      and an envelope fault never costs a continuation. */
  lemma {:induction false} FailsClosed(cfg: Config, w: World, words: Words, continuations: nat, max: nat, session: bool, live: bool)
    ensures var v := ApplyHandoffPlan(cfg, w, words, continuations, max, session, live);
            && (PinnedCriterionSet(cfg).Err? ==> v.failReason != "" && !v.forgeUnavailable)
            && (CheckHandoff(cfg, w).ReadFailed? ==> !v.pass && !v.superseded && (v.continueMsg != "" ==> v.kind == Some(Reverify)))
            && (v.kind == Some(OpenPullRequest) ==>
                  w.listing == Ok(Listing([], false)) && w.heads.Ok? && w.heads.value.remote == Some(w.heads.value.local))
            && (v.kind == Some(ReadyDraft) ==>
                  w.listing.Ok? && IsTidy(cfg.base, w.listing.value)
                  && exists k: nat :: IsAlone(w.listing.value.pulls, k) && w.listing.value.pulls[k].draft)
  {
    RenderSays(Plan(CheckHandoff(cfg, w), IsFixPrRun(cfg), Resumable(continuations, max, session, live)), words);
    PlanFailsClosed(PinnedCriterionSet(cfg), KindOf(cfg), cfg.base, w, IsFixPrRun(cfg), Resumable(continuations, max, session, live));
    if w.listing.Ok? {
      ClassifiesExactly(cfg.base, w.listing.value);
    }
  }

  lemma {:induction false} PlanFailsClosed(
    pinned: Result<Option<CriterionSet>, Check>, kind: Kind, base: string, w: World, fixPr: bool, resumable: bool)
    requires pinned.Err? ==> pinned.error.EnvelopeIdentity? || pinned.error.EnvelopeDecode?
    ensures var check := CheckPinned(pinned, kind, base, w); var d := Plan(check, fixPr, resumable);
            && (pinned.Err? ==> d.Fails? && !d.forgeUnavailable)
            && (check.ReadFailed? ==> d.Fails? || d == Continues(Reverify))
            && (d == Continues(OpenPullRequest) ==>
                  w.listing.Ok? && Classify(base, w.listing.value) == MissingPr && HeadPublished(w))
            && (d == Continues(ReadyDraft) ==> w.listing.Ok? && Classify(base, w.listing.value).DraftPr?)
  {
    if pinned.Ok? {
      AskedCheck(kind, base, pinned.value, w);
    }
  }

  lemma {:induction false} AskedCheck(kind: Kind, base: string, pinned: Option<CriterionSet>, w: World)
    ensures var check := CheckKind(kind, base, pinned, w);
            && (check == Checked(Missing) ==>
                  kind.ForIssue? && w.listing.Ok? && HeadPublished(w) && Classify(base, w.listing.value) == MissingPr)
            && (check.Checked? && check.outcome.DraftOpen? ==> w.listing.Ok? && Classify(base, w.listing.value).DraftPr?)
  {
  }
}
